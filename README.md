# SF street cleaning — a verified model

This project models the core of the Home Assistant integration
`sf_street_cleaning`. The integration follows a vehicle's device tracker.
It finds the San Francisco street segment closest to the vehicle. It picks
the curb side the vehicle is parked on from the vehicle's heading. It then
reports whether street sweeping on that side is happening now, starts
within a day, or is further away.

The model has six modules:

- `JsonValues` (json.dfy): the decoded JSON values the integration works
  on. Objects are key/value lists, so `dict.get` is the first binding of a
  key. This module also holds Python truthiness.
- `Geometry` (geometry.dfy): `distance_point_to_segment_meters`,
  `get_bearing` and `find_cleaning_data`. It has a pure specification
  (`CleaningData`) and an imperative scan of the features
  (`FindCleaningData`) proved equal to it.
- `Heading` (heading.dfy): how the update turns the tracker's `course`,
  `heading` or `compassDirection` attribute into a whole-degree rotation.
- `Schedule` (schedule.dfy): how the announced cleaning time becomes a date
  and an hour count, and how that count becomes a state.
- `Neighborhood` (neighborhood.dfy): the ray-casting point-in-polygon test,
  the multipolygon test and the lookup of the neighbourhood file in the
  index. Each is a loop proved against a recursive specification.
- `Sensor` (sensor.dfy): the whole `_update_sensor_state` as a function
  `Update`, and the sensor entity as a class whose `UpdateState` method
  changes its `state` and `attributes` fields exactly as `Update` says.

Where the model needs something it cannot see, it takes it as a parameter:

- `MathLib` stands for `sqrt`, `sin`, `cos` and `atan2`. Properties of the
  distance that need a correct square root assume `Sound(m)`: the square
  root of a non-negative number is non-negative and squares back to it.
- `Host` stands for `float()` on strings, `datetime.fromisoformat` and
  `datetime.isoformat`.
- The clock is the parameter `now`, an instant in microseconds.
- The GPS fallback sensor's attributes are a parameter `gps`.

Python floats are modelled as exact reals. Two kinds of value are kept out
of the reals: `nan` and `±inf` (`Float.Special` / `Json.JNonFinite`).

Behaviour follows the code, including these edge cases:

- The code assumes a sweep lasts two hours (its comment at
  `sensor.py:309`). Exactly 2.0 hours after the cleaning start, the
  code's `hours_until > -2.0` test fails, so the state is then "Clear",
  not "Sweeping Now" (`Schedule.Urgency`).
- A heading of exactly 90 or 270 degrees on a north–south street gives no
  detected side. When no median applies and `Sides` is not empty, the code
  then falls back to the first listed side with " (Defaulted)" appended;
  with no sides the side is "Unknown" (`Geometry.DetectedSideKey`,
  `Geometry.ChooseSide`).
- The ray-casting test adds `1e-12` to the edge's latitude difference. An
  edge whose latitude difference is exactly `-1e-12` and which straddles
  the point divides by zero. The lookup's `except` then swallows the error
  and reports no neighbourhood, even when a later polygon would contain
  the point (`Neighborhood.EpsilonEdgeRaises`).
- A tracker reporting a non-finite latitude or longitude makes every
  distance NaN. No `<` comparison against NaN holds, so no segment is
  chosen and the state is "Out of Coverage" (`Sensor.Match`).

## Model

| member | source | states |
|---|---|---|
| Geometry.DistancePointToSegment | custom_components/sf_street_cleaning/geometry.py:3-50 | with a sound square root the distance is never negative |
| Geometry.ProjectionParameter | custom_components/sf_street_cleaning/geometry.py:32-39 | for a proper segment, t is the foot of the perpendicular from the vehicle: t·\|V\|² = −P1·V |
| Geometry.ProjectionIsOrthogonal | custom_components/sf_street_cleaning/geometry.py:32-39 | the point at the projection parameter is orthogonal to the segment's direction, as the source's derivation requires |
| Geometry.ClampedProjectionIsNearest | custom_components/sf_street_cleaning/geometry.py:39-46 | the point at the clamped parameter is no farther from the vehicle than any other point of the segment |
| Geometry.DegenerateDistance | custom_components/sf_street_cleaning/geometry.py:29-30 | a zero-length segment gives the distance to its one point, and every point of it lies at that distance |
| Geometry.ProperDistance | custom_components/sf_street_cleaning/geometry.py:32-50 | a proper segment gives the distance to the clamped projection, which is no more than the distance to any point of the segment |
| Geometry.DistanceIsNearestPointOfSegment | custom_components/sf_street_cleaning/geometry.py:3-50 | the squared distance is attained at some point of the segment and is at most the squared distance to every point of it |
| Geometry.ZeroDistanceIsOnSegment | custom_components/sf_street_cleaning/geometry.py:29-50 | a zero distance means the vehicle lies on the segment |
| Geometry.OnSegmentIsZeroDistance | custom_components/sf_street_cleaning/geometry.py:29-50 | a vehicle on the segment is at distance zero |
| Geometry.DistanceZeroIffOnSegment | custom_components/sf_street_cleaning/geometry.py:29-50 | distance zero if and only if the vehicle is on the segment |
| Geometry.NormalizeBearing | custom_components/sf_street_cleaning/geometry.py:60 | the result lies in [0, 360); an angle in [−360, 0) gains one turn and an angle in [0, 360) is kept |
| Geometry.RawBearing | custom_components/sf_street_cleaning/geometry.py:56-59 | with a sound atan2 the raw bearing lies in [−180, 180] |
| Geometry.Bearing | custom_components/sf_street_cleaning/geometry.py:52-60 | the bearing lies in [0, 360) and is the raw bearing, plus a turn when that is negative |
| Geometry.FeatureSegments | custom_components/sf_street_cleaning/geometry.py:76-84 | a LineString feature with n ≥ 2 points gives its n−1 consecutive segments; any other feature gives none |
| Geometry.Segments | custom_components/sf_street_cleaning/geometry.py:75-84 | every scanned segment belongs to a feature of the dataset |
| Geometry.Distances | custom_components/sf_street_cleaning/geometry.py:87 | proof helper for the scan: one distance per segment, in order |
| Geometry.FirstMinimum | custom_components/sf_street_cleaning/geometry.py:89-93 | the strict `<` keeps the first of the nearest segments: it is no farther than any, and strictly nearer than every earlier one |
| Geometry.DetectedSideKey | custom_components/sf_street_cleaning/geometry.py:125-139 | East, West, South, North or none, each if and only if its street orientation and heading range hold |
| Geometry.DetectedSideIsRightHandSide | custom_components/sf_street_cleaning/geometry.py:127-139 | for a rotation in [0, 360), the detected key is the right-hand curb of the direction of travel; none only when heading due east or west on a north–south street |
| Geometry.ChooseSide | custom_components/sf_street_cleaning/geometry.py:102-151 | median if and only if within 6 m and a Median side exists; otherwise the detected side when listed, else the first side "(Defaulted)"; "Unknown" if and only if there are no sides |
| Geometry.StreetName | custom_components/sf_street_cleaning/geometry.py:99 | streetname, else Corridor, else StreetIdentifier, else "Unknown" |
| Geometry.CleaningData | custom_components/sf_street_cleaning/geometry.py:62-159 | no match if and only if there are no features or no segments; a found distance is that of some segment, no more than that of every segment, and non-negative |
| Geometry.ScanFindsNearest | custom_components/sf_street_cleaning/geometry.py:70-93 | the running scan's closest segment is the first minimum of the distances seen so far |
| Geometry.ScanNext | custom_components/sf_street_cleaning/geometry.py:86-93 | proof helper for the loop: scanning one more segment is one visit step |
| Geometry.ScanFeature | custom_components/sf_street_cleaning/geometry.py:75-82 | proof helper for the loop: the segments of one more feature are appended in order |
| Geometry.Report | custom_components/sf_street_cleaning/geometry.py:95-159 | no match if and only if no segment was closest; missing properties if and only if the closest feature has none; a match reports the minimum distance, the street name, the median rule and "Unknown" if and only if there are no sides |
| Geometry.ScanComplete | custom_components/sf_street_cleaning/geometry.py:95-159 | the report built from the finished scan is the specification's answer |
| Geometry.ScanFeatureSegments | custom_components/sf_street_cleaning/geometry.py:76-93 | the inner loop leaves the scan state of the segments seen so far plus this feature's segments |
| Geometry.ScanDataset | custom_components/sf_street_cleaning/geometry.py:70-93 | the outer loop leaves the scan state of all the dataset's segments |
| Geometry.FindCleaningData | custom_components/sf_street_cleaning/geometry.py:62-159 | the imperative lookup returns exactly `CleaningData` |
| Heading.ToFloat | custom_components/sf_street_cleaning/sensor.py:252 | `float()` of a number is the number, of a bool 1 or 0, of nan/inf itself; None, lists and dicts raise |
| Heading.Trunc | custom_components/sf_street_cleaning/sensor.py:252 | `int()` truncates toward zero |
| Heading.CompassDegrees | custom_components/sf_street_cleaning/sensor.py:228-245 | every compass name maps to a multiple of 45 in [0, 360) |
| Heading.CompassNamesAgree | custom_components/sf_street_cleaning/sensor.py:228-245 | the short and the long name of the k-th direction both map to 45·k |
| Heading.StripTrimsBothEnds | custom_components/sf_street_cleaning/sensor.py:246 | `strip()` removes exactly the leading and trailing whitespace and keeps the middle |
| Heading.StripUnpadded | custom_components/sf_street_cleaning/sensor.py:246 | a string without surrounding whitespace is unchanged by `strip()` |
| Heading.UpperEachChar | custom_components/sf_street_cleaning/sensor.py:246 | `upper()` keeps the length and maps each character |
| Heading.UpperUnchanged | custom_components/sf_street_cleaning/sensor.py:246 | a string without lower-case letters is unchanged by `upper()` |
| Heading.HeadingAttribute | custom_components/sf_street_cleaning/sensor.py:192 | course if present (even when None), else heading if present, else compassDirection or None |
| Heading.SelectHeading | custom_components/sf_street_cleaning/sensor.py:192-208 | the tracker's heading unless it is None; then the GPS sensor's, if that sensor exists |
| Heading.FirstScalar | custom_components/sf_street_cleaning/sensor.py:221-224 | the first number, bool or string value of the object, None if and only if there is none |
| Heading.UnwrapObject | custom_components/sf_street_cleaning/sensor.py:217-225 | a truthy `heading`, else a truthy `value`, else the first scalar value |
| Heading.NormalizeHeading | custom_components/sf_street_cleaning/sensor.py:217-248 | an object is first unwrapped (`heading`, else `value`, else the first scalar); a compass name, bare or unwrapped, becomes its degrees after strip and upper; any other value stays as it is |
| Heading.CompassNameNormalized | custom_components/sf_street_cleaning/sensor.py:227-248 | every listed compass name is translated to its degrees |
| Heading.RotationOf | custom_components/sf_street_cleaning/sensor.py:211-254 | the rotation lies in [0, 360); it is 0 for None, NaN or an unconvertible value; a finite number gives its truncation mod 360; only an infinite one raises |
| Heading.Rotation | custom_components/sf_street_cleaning/sensor.py:192-254 | a rotation, when there is one, lies in [0, 360) |
| Heading.RotationIsHeadingModTurn | custom_components/sf_street_cleaning/sensor.py:252 | a numeric heading becomes its truncation minus a whole number of turns |
| Heading.RotationOfNumber | custom_components/sf_street_cleaning/sensor.py:252 | a heading already in [0, 360) keeps its whole degrees |
| Heading.CourseIsUsed | tests/test_sensor.py:74-78 | a `course` of 90 gives rotation 90 |
| Heading.HeadingIsUsed | tests/test_sensor.py:80-84 | without `course`, a `heading` of 180 gives rotation 180 |
| Heading.SouthwestIs225 | custom_components/sf_street_cleaning/sensor.py:246-248 | "SOUTHWEST" normalises to 225 |
| Heading.WrappedCompassName | custom_components/sf_street_cleaning/sensor.py:217-248 | the object `{"heading": "SW"}` normalises to 225 |
| Heading.CompassDirectionIsTranslated | tests/test_sensor.py:86-90 | with only `compassDirection` "SOUTHWEST", the rotation is 225 |
| Heading.NullCourseShadowsHeading | custom_components/sf_street_cleaning/sensor.py:192-193 | a `course` that is present but None hides `heading`, and without a GPS sensor the rotation is 0 |
| Schedule.HoursUntil | custom_components/sf_street_cleaning/sensor.py:302-303 | the hour count is positive before the cleaning, zero at it, negative after it, and k for k whole hours between the instants |
| Schedule.Urgency | custom_components/sf_street_cleaning/sensor.py:307-317 | Sweeping Now if and only if −2 < h < 0; Warning if and only if 0 ≤ h < 24; Clear if and only if h ≤ −2 or h ≥ 24 |
| Schedule.UrgencyByMicroseconds | custom_components/sf_street_cleaning/sensor.py:301-317 | the same three windows read directly on the two instants |
| Schedule.RoundHalfEven | custom_components/sf_street_cleaning/sensor.py:304 | the result is within 0.5 of x, and a tie goes to the even integer |
| Schedule.RoundHalfEvenIsNearest | custom_components/sf_street_cleaning/sensor.py:304 | no integer is nearer to x than the rounded value |
| Schedule.Round1 | custom_components/sf_street_cleaning/sensor.py:304 | the recorded hour count is a whole number of tenths within 0.05 of the exact one, and a tie goes to an even number of tenths |
| Schedule.Round1IsNearestTenth | custom_components/sf_street_cleaning/sensor.py:304 | no number of tenths is nearer to the exact hour count than the recorded one |
| Schedule.ParseNextCleaning | custom_components/sf_street_cleaning/sensor.py:277-298 | an object records its `NextCleaning` value, a string records itself, anything else records nothing; a time is parsed exactly from a recorded string other than "Unknown"; a truthy non-string raises |
| Schedule.NoTimeCases | custom_components/sf_street_cleaning/sensor.py:283-299 | no schedule exactly for: an entry neither object nor string, a falsy or "Unknown" `NextCleaning`, an "Unknown" string, or a string that does not parse |
| Neighborhood.EdgeCrossing | custom_components/sf_street_cleaning/sensor.py:351 | an edge divides by zero if and only if it straddles the latitude and its shifted denominator is zero; it toggles if and only if it straddles and the point lies west of the crossing |
| Neighborhood.Crossings | custom_components/sf_street_cleaning/sensor.py:346-352 | the count fails if and only if some edge so far divides by zero |
| Neighborhood.CrossingsCountsToggles | custom_components/sf_street_cleaning/sensor.py:346-352 | the count is the number of toggling edges |
| Neighborhood.RingParity | custom_components/sf_street_cleaning/sensor.py:344-353 | inside if and only if an odd number of edges toggle; no answer if and only if an edge divides by zero |
| Neighborhood.PointInPolygon | custom_components/sf_street_cleaning/sensor.py:344-353 | the loop computes the ring test of the specification |
| Neighborhood.InMultipolygon | custom_components/sf_street_cleaning/sensor.py:355-363 | inside if and only if some polygon's exterior contains the point and every earlier one does not; outside if and only if no exterior does |
| Neighborhood.PointInMultipolygon | custom_components/sf_street_cleaning/sensor.py:355-363 | the loop computes the multipolygon test of the specification |
| Neighborhood.FeatureOutcome | custom_components/sf_street_cleaning/sensor.py:333-339 | null properties raise; absent properties or a falsy file name are skipped before the geometry is read; then a null geometry raises, an absent or non-MultiPolygon one is skipped; a named multipolygon is a hit if and only if it contains the point, and raises when its test divides by zero |
| Neighborhood.SearchIndex | custom_components/sf_street_cleaning/sensor.py:331-339 | a miss if and only if every feature misses; otherwise the first feature that does not miss decides |
| Neighborhood.FileIsFirstHit | custom_components/sf_street_cleaning/sensor.py:329-342 | a file name is returned if and only if it is the first hit and no earlier feature raised |
| Neighborhood.ContainingFeatureIsFound | custom_components/sf_street_cleaning/sensor.py:332-339 | a feature with a truthy file name whose multipolygon contains the point is returned when every earlier feature is skipped |
| Neighborhood.FindNeighborhoodFile | custom_components/sf_street_cleaning/sensor.py:329-342 | the loop returns exactly the specification's file name |
| Neighborhood.SquareContainsCentre | tests/test_sensor.py:92-116 | the unit square's centre is in "Square" |
| Neighborhood.SquareExcludesFarPoint | tests/test_sensor.py:117-118 | the point (2, 2) is in no neighbourhood |
| Neighborhood.EpsilonEdgeRaises | custom_components/sf_street_cleaning/sensor.py:351 | an edge of latitude difference −1e-12 that straddles the point makes the ring test fail |
| JsonValues.Get | custom_components/sf_street_cleaning/sensor.py:188-192 | `dict.get`: None if and only if the key is absent, otherwise the value stored under it |
| JsonValues.Truthy | custom_components/sf_street_cleaning/sensor.py:218-220 | falsy exactly for None, False, zero, the empty string, list and object |
| Sensor.Unavailable | custom_components/sf_street_cleaning/sensor.py:181-182 | a missing tracker, or one in state unknown or unavailable, has no position; a tracker in any other state has one |
| Sensor.Coordinate | custom_components/sf_street_cleaning/sensor.py:188-189 | a missing coordinate is 0, a number is itself, and None raises |
| Sensor.Match | custom_components/sf_street_cleaning/sensor.py:258-260 | a non-finite coordinate gives no match; otherwise no match if and only if there is no segment, and a match is no farther than any segment |
| Sensor.CleaningOutcome | custom_components/sf_street_cleaning/sensor.py:270-323 | the attributes are replaced wholesale by the match attributes, kept as written, plus next_cleaning (recorded if and only if an entry was found) and nothing else beyond next_cleaning_start and cleaning_in_hours; No Schedule Found with −1 hours and no start if and only if there is no time; Error, with neither start nor hours, for a non-string or naive time; for an aware time the urgency of the hours, next_cleaning_start its ISO text, and `cleaning_in_hours` the hour count rounded to one decimal (`Round1`) |
| Sensor.AttrNamesDistinct | custom_components/sf_street_cleaning/const.py:15-21 | distinct attributes have distinct display names |
| Sensor.OutOfCoverageAttributeNames | custom_components/sf_street_cleaning/sensor.py:262-266 | an Out of Coverage update shows exactly the attributes named "latitude", "longitude" and "reason" |
| Sensor.Update | custom_components/sf_street_cleaning/sensor.py:179-327 | unknown if and only if the tracker is missing or unavailable, keeping the old attributes; Out of Coverage writes exactly the tracker's converted latitude and longitude and the reason "no_segment_match"; every schedule state carries street, side and hours; a coordinate or heading that does not convert gives Error with the old attributes |
| Sensor.OutOfCoverageExactly | custom_components/sf_street_cleaning/sensor.py:258-268 | Out of Coverage if and only if the tracker is available, both coordinates and the rotation convert, and either a coordinate is non-finite or the lookup finds no segment |
| Sensor.MatchDecidesOutcome | custom_components/sf_street_cleaning/sensor.py:258-275 | once a segment is matched, the outcome is the cleaning outcome of that match and records its distance |
| Sensor.ErrorKeepsAttributesWritten | custom_components/sf_street_cleaning/sensor.py:325-327 | an Error leaves either the old attributes or the match attributes written before the exception; a latitude that does not convert leaves the old ones |
| Sensor.StreetCleaningSensor.constructor | custom_components/sf_street_cleaning/sensor.py:66-80 | a new sensor is unknown with no attributes |
| Sensor.StreetCleaningSensor.NativeValue | custom_components/sf_street_cleaning/sensor.py:365-368 | the entity's value is the text of its state, each state with its own text |
| Sensor.StreetCleaningSensor.UpdateState | custom_components/sf_street_cleaning/sensor.py:179-327 | the new state and attributes are exactly `Update` of the old attributes |
| Sensor.StreetCleaningSensor.RecordCleaning | custom_components/sf_street_cleaning/sensor.py:270-323 | the new state and attributes are exactly `CleaningOutcome` of the match |

## Left out

- Fetching, caching and refreshing the GeoJSON dataset and the neighbourhood index, the entity's lifecycle, event subscriptions, the config flow and logging: they are I/O and framework calls.
- The alert bookkeeping and the neighbourhood-driven dataset switch in `_async_ensure_geojson`: the model covers the lookup (`FindNeighborhoodFile`) but not what the caller then downloads.
- Deriving the GPS sensor's entity id from the tracker id and reading it from Home Assistant: the GPS sensor's attributes are a parameter.
- `math.sqrt`, `sin`, `cos`, `atan2`, `float()` on strings, `datetime.fromisoformat`, `isoformat` and the clock are parameters (`MathLib`, `Host`).
- Floating point: values are exact reals, so rounding error, underflow and the binary representation that Python's `round` sees are not modelled.
- Schedule.Round1: rounds the exact real, not the binary double Python rounds, so results can differ from Python on values a double cannot hold exactly.
- Sensor.Match: a non-finite coordinate is taken to give no match, following the rule that every comparison with NaN is false; the NaN arithmetic of the distance itself is not modelled.
- Heading.Upper: `str.upper` is modelled on ASCII letters only, so characters whose upper case lies outside ASCII or spans several characters (such as `'ſ'.upper() == 'S'`) are left unchanged; `str.strip` covers all of Python's whitespace.
- Malformed data whose failure the model does not trace: a geometry without `type` or `coordinates`, non-numeric or short coordinate pairs, a `Sides` value that is not an object, or a `features` entry that is not a list.
- The order of keys in the attributes dictionary: attributes are a map keyed by attribute, so insertion order is not modelled.
