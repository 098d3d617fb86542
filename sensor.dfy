/** The street-cleaning sensor entity: on each update it reads the vehicle
    tracker, works out the heading, asks the matcher for the nearest street
    segment and curb side, and turns that side's next cleaning time into a
    state and a set of attributes. */
module Sensor {
  import opened JsonValues
  import opened Geometry
  import opened Heading
  import opened Schedule

  /** What the update reads of the device tracker entity: its state text and
      its attributes. */
  datatype TrackerState = TrackerState(state: string, attributes: seq<(string, Json)>)

  /** The services the update takes from its environment: `float()` on a
      string, `datetime.fromisoformat` and `datetime.isoformat`. */
  datatype Host = Host(
    parseFloat: string -> Option<Float>,
    parseIso: string -> Option<DateTime>,
    isoFormat: DateTime -> string)

  /** The attributes the sensor writes. */
  datatype Attr =
    | Latitude | Longitude | Reason
    | Street | Side | DistanceToSegment | Median
    | NextCleaningEntry | NextCleaningStart | CleaningInHours

  /** The attribute names Home Assistant shows. */
  function AttrName(a: Attr): string {
    match a
    case Latitude => "latitude"
    case Longitude => "longitude"
    case Reason => "reason"
    case Street => "street"
    case Side => "side"
    case DistanceToSegment => "distance_to_segment"
    case Median => "median"
    case NextCleaningEntry => "next_cleaning"
    case NextCleaningStart => "next_cleaning_start"
    case CleaningInHours => "cleaning_in_hours"
  }

  /** Distinct attributes are shown under distinct names, so a map keyed by
      attribute is a dictionary keyed by name. */
  lemma AttrNamesDistinct(a: Attr, b: Attr)
    ensures AttrName(a) == AttrName(b) <==> a == b
  {
  }

  /** The sensor's state and attributes after an update. */
  datatype Outcome = Outcome(state: SensorState, attributes: map<Attr, Json>)

  /** A Python float stored as an attribute value. */
  function FloatJson(f: Float): Json {
    match f
    case Finite(r) => JNum(r)
    case Special(k) => JNonFinite(k)
  }

  /** The attributes reported when no street segment matches. */
  function NoMatchAttributes(lat: Float, lon: Float): map<Attr, Json> {
    map[Latitude := FloatJson(lat), Longitude := FloatJson(lon), Reason := JStr("no_segment_match")]
  }

  /** The attributes a match always reports. */
  function MatchAttributes(res: MatchResult): map<Attr, Json> {
    map[Street := res.street, Side := JStr(res.parkedOnSide),
        DistanceToSegment := JNum(res.distance), Median := JBool(res.median)]
  }

  /** The outcome once a segment matched: the match attributes, the
      `next_cleaning` entry, and the state the cleaning time gives.  A naive
      time cannot be subtracted from the aware present and a non-string entry
      cannot be parsed; both raise, leaving the attributes written so far. */
  function CleaningOutcome(host: Host, res: MatchResult, now: int): (o: Outcome)
    ensures forall k :: k in MatchAttributes(res) ==> k in o.attributes && o.attributes[k] == MatchAttributes(res)[k]
    ensures var next := ParseNextCleaning(host.parseIso, res.nextCleaning);
            (next.attribute.Some? ==> NextCleaningEntry in o.attributes && o.attributes[NextCleaningEntry] == next.attribute.value)
            && (next.attribute.None? ==> NextCleaningEntry !in o.attributes)
    ensures var time := ParseNextCleaning(host.parseIso, res.nextCleaning).time;
            (o.state == NoScheduleFound <==> time.NoTime?)
            && (o.state == Error <==> time.NotAString? || (time.At? && time.dt.Naive?))
            && o.state != Unknown && o.state != OutOfCoverage
    // the match replaces the attributes wholesale: nothing from before survives
    ensures o.attributes.Keys <= {Street, Side, DistanceToSegment, Median,
                                  NextCleaningEntry, NextCleaningStart, CleaningInHours}
    // the start and the hour count are written only on the paths that reach them
    ensures o.state == NoScheduleFound || o.state == Error ==> NextCleaningStart !in o.attributes
    ensures o.state == Error ==> CleaningInHours !in o.attributes
    ensures o.state == NoScheduleFound ==>
              CleaningInHours in o.attributes && o.attributes[CleaningInHours] == JNum(-1.0)
    ensures var time := ParseNextCleaning(host.parseIso, res.nextCleaning).time;
            time.At? && time.dt.Aware? ==>
              var hours := HoursUntil(time.dt.instant, now);
              o.state == Urgency(hours) &&
              CleaningInHours in o.attributes && o.attributes[CleaningInHours].JNum? &&
              o.attributes[CleaningInHours] == JNum(Round1(hours)) &&
              Abs(o.attributes[CleaningInHours].n - hours) <= 0.05 &&
              NextCleaningStart in o.attributes &&
              o.attributes[NextCleaningStart] == JStr(host.isoFormat(time.dt))
  {
    var next := ParseNextCleaning(host.parseIso, res.nextCleaning);
    var attrs := if next.attribute.Some? then MatchAttributes(res)[NextCleaningEntry := next.attribute.value]
                 else MatchAttributes(res);
    match next.time
    case NotAString => Outcome(Error, attrs)
    case NoTime => Outcome(NoScheduleFound, attrs[CleaningInHours := JNum(-1.0)])
    case At(dt) =>
      if dt.Naive? then Outcome(Error, attrs)
      else
        var hours := HoursUntil(dt.instant, now);
        Outcome(Urgency(hours), attrs[CleaningInHours := JNum(Round1(hours))][NextCleaningStart := JStr(host.isoFormat(dt))])
  }

  /** True for a tracker state the update treats as no position at all. */
  predicate Unavailable(tracker: Option<TrackerState>)
    ensures tracker.Some? && tracker.value.state != "unknown" && tracker.value.state != "unavailable" ==>
              !Unavailable(tracker)
    ensures tracker.None? ==> Unavailable(tracker)
    ensures tracker.Some? && tracker.value.state in {"unknown", "unavailable"} ==> Unavailable(tracker)
  {
    tracker.None? || tracker.value.state == "unknown" || tracker.value.state == "unavailable"
  }

  /** The tracker's latitude or longitude as float() sees it (0 when missing). */
  function Coordinate(host: Host, tracker: TrackerState, key: string): (c: Option<Float>)
    ensures !HasKey(tracker.attributes, key) ==> c == Some(Finite(0.0))
    ensures Get(tracker.attributes, key) == Some(JNull) ==> c.None?
    ensures forall x :: Get(tracker.attributes, key) == Some(JNum(x)) ==> c == Some(Finite(x))
  {
    ToFloat(host.parseFloat, GetOr(tracker.attributes, key, JNum(0.0)))
  }

  /** The matcher's answer for the tracker's position.  A non-finite
      coordinate makes every segment distance NaN, no distance compares below
      the running minimum, and no segment is chosen: no match. */
  function Match(m: MathLib, geojson: Dataset, lat: Float, lon: Float, rotation: int): (r: Lookup)
    ensures !(lat.Finite? && lon.Finite?) ==> r.NoMatch?
    ensures r.NoMatch? <==> !(lat.Finite? && lon.Finite?) || geojson.features.None?
                            || Segments(geojson.features.value) == []
    ensures r.Found? ==> lat.Finite? && lon.Finite? &&
                         forall s :: s in Segments(geojson.features.value) ==>
                           r.result.distance <= SegmentDistance(m, s, Position(lon.r, lat.r))
  {
    if lat.Finite? && lon.Finite? then CleaningData(m, geojson, lat.r, lon.r, rotation) else NoMatch
  }

  /** An "Out of Coverage" update shows exactly the attributes named
      "latitude", "longitude" and "reason". */
  lemma OutOfCoverageAttributeNames(m: MathLib, host: Host, geojson: Dataset, tracker: Option<TrackerState>,
                                    gps: Option<seq<(string, Json)>>, now: int, current: map<Attr, Json>)
    ensures Update(m, host, geojson, tracker, gps, now, current).state == OutOfCoverage ==>
              (set a | a in Update(m, host, geojson, tracker, gps, now, current).attributes :: AttrName(a))
                == {"latitude", "longitude", "reason"}
  {
    var o := Update(m, host, geojson, tracker, gps, now, current);
    if o.state == OutOfCoverage {
      assert o.attributes.Keys == {Latitude, Longitude, Reason};
      var names := set a | a in o.attributes :: AttrName(a);
      assert AttrName(Latitude) in names && AttrName(Longitude) in names && AttrName(Reason) in names;
    }
  }

  /** One update of the sensor from the tracker, the companion GPS sensor's
      attributes (None when there is no such entity) and the present instant;
      `current` are the attributes before the update, kept where an early
      return or an exception leaves them untouched. */
  function Update(m: MathLib, host: Host, geojson: Dataset, tracker: Option<TrackerState>,
                  gps: Option<seq<(string, Json)>>, now: int, current: map<Attr, Json>): (o: Outcome)
    ensures o.state == Unknown <==> Unavailable(tracker)
    ensures o.state == Unknown ==> o.attributes == current
    ensures o.state == OutOfCoverage ==>
              o.attributes.Keys == {Latitude, Longitude, Reason} &&
              o.attributes[Reason] == JStr("no_segment_match") &&
              tracker.Some? &&
              Coordinate(host, tracker.value, "latitude").Some? &&
              o.attributes[Latitude] == FloatJson(Coordinate(host, tracker.value, "latitude").value) &&
              Coordinate(host, tracker.value, "longitude").Some? &&
              o.attributes[Longitude] == FloatJson(Coordinate(host, tracker.value, "longitude").value)
    ensures o.state == SweepingNow || o.state == Warning || o.state == Clear || o.state == NoScheduleFound ==>
              Street in o.attributes && Side in o.attributes && CleaningInHours in o.attributes
    // a position or heading that does not convert raises before anything is written
    ensures !Unavailable(tracker) &&
            (Coordinate(host, tracker.value, "latitude").None? ||
             Coordinate(host, tracker.value, "longitude").None? ||
             Rotation(host.parseFloat, tracker.value.attributes, gps).None?) ==>
              o.state == Error && o.attributes == current
  {
    if Unavailable(tracker) then Outcome(Unknown, current)
    else
      var lat := Coordinate(host, tracker.value, "latitude");
      var lon := Coordinate(host, tracker.value, "longitude");
      if lat.None? || lon.None? then Outcome(Error, current)
      else
        var rotation := Rotation(host.parseFloat, tracker.value.attributes, gps);
        if rotation.None? then Outcome(Error, current)
        else
          match Match(m, geojson, lat.value, lon.value, rotation.value)
          case NoMatch => Outcome(OutOfCoverage, NoMatchAttributes(lat.value, lon.value))
          case PropertiesMissing => Outcome(Error, current)
          case Found(res) => CleaningOutcome(host, res, now)
  }

  /** "Out of Coverage" is reported exactly when the tracker gives a position
      and a heading and the matcher finds no segment for them; a non-finite
      position is always out of coverage. */
  lemma OutOfCoverageExactly(m: MathLib, host: Host, geojson: Dataset, tracker: Option<TrackerState>,
                             gps: Option<seq<(string, Json)>>, now: int, current: map<Attr, Json>)
    ensures Update(m, host, geojson, tracker, gps, now, current).state == OutOfCoverage <==>
              !Unavailable(tracker) &&
              Coordinate(host, tracker.value, "latitude").Some? &&
              Coordinate(host, tracker.value, "longitude").Some? &&
              Rotation(host.parseFloat, tracker.value.attributes, gps).Some? &&
              (Coordinate(host, tracker.value, "latitude").value.Special? ||
               Coordinate(host, tracker.value, "longitude").value.Special? ||
               CleaningData(m, geojson, Coordinate(host, tracker.value, "latitude").value.r,
                            Coordinate(host, tracker.value, "longitude").value.r,
                            Rotation(host.parseFloat, tracker.value.attributes, gps).value).NoMatch?)
  {
    if !Unavailable(tracker) {
      var lat := Coordinate(host, tracker.value, "latitude");
      var lon := Coordinate(host, tracker.value, "longitude");
      if lat.Some? && lon.Some? && Rotation(host.parseFloat, tracker.value.attributes, gps).Some? {
        var r := Rotation(host.parseFloat, tracker.value.attributes, gps).value;
        match Match(m, geojson, lat.value, lon.value, r)
        case NoMatch =>
        case PropertiesMissing =>
        case Found(res) => assert CleaningOutcome(host, res, now).state != OutOfCoverage;
      }
    }
  }

  /** With a finite position, heading and a match, the outcome is decided by
      the match and its cleaning time alone; the distance reported is the
      nearest segment's. */
  lemma MatchDecidesOutcome(m: MathLib, host: Host, geojson: Dataset, tracker: TrackerState,
                            gps: Option<seq<(string, Json)>>, now: int, current: map<Attr, Json>,
                            lat: real, lon: real, rotation: int, res: MatchResult)
    requires tracker.state != "unknown" && tracker.state != "unavailable"
    requires Coordinate(host, tracker, "latitude") == Some(Finite(lat))
    requires Coordinate(host, tracker, "longitude") == Some(Finite(lon))
    requires Rotation(host.parseFloat, tracker.attributes, gps) == Some(rotation)
    requires CleaningData(m, geojson, lat, lon, rotation) == Found(res)
    ensures Update(m, host, geojson, Some(tracker), gps, now, current) == CleaningOutcome(host, res, now)
    ensures DistanceToSegment in CleaningOutcome(host, res, now).attributes
    ensures CleaningOutcome(host, res, now).attributes[DistanceToSegment] == JNum(res.distance)
  {
    assert !Unavailable(Some(tracker));
    assert Match(m, geojson, Finite(lat), Finite(lon), rotation) == Found(res);
    assert DistanceToSegment in MatchAttributes(res);
  }

  /** An update that fails before the matcher answers, or because the
      matched feature has no properties, leaves the attributes as they were;
      a later failure keeps the match attributes. */
  lemma ErrorKeepsAttributesWritten(m: MathLib, host: Host, geojson: Dataset, tracker: Option<TrackerState>,
                                    gps: Option<seq<(string, Json)>>, now: int, current: map<Attr, Json>)
    ensures Update(m, host, geojson, tracker, gps, now, current).state == Error ==>
              Update(m, host, geojson, tracker, gps, now, current).attributes == current ||
              Street in Update(m, host, geojson, tracker, gps, now, current).attributes
    ensures Update(m, host, geojson, tracker, gps, now, current).state == Error &&
            !Unavailable(tracker) && Coordinate(host, tracker.value, "latitude").None? ==>
              Update(m, host, geojson, tracker, gps, now, current).attributes == current
  {
    if !Unavailable(tracker) {
      var lat := Coordinate(host, tracker.value, "latitude");
      var lon := Coordinate(host, tracker.value, "longitude");
      if lat.Some? && lon.Some? && Rotation(host.parseFloat, tracker.value.attributes, gps).Some? {
        var r := Rotation(host.parseFloat, tracker.value.attributes, gps).value;
        match Match(m, geojson, lat.value, lon.value, r)
        case NoMatch =>
        case PropertiesMissing =>
        case Found(res) => assert Street in MatchAttributes(res);
      }
    }
  }

  /** The sensor entity: the state and attributes it reports and the street
      dataset it matches against. */
  class StreetCleaningSensor {
    var state: SensorState
    var attributes: map<Attr, Json>
    var geojson: Dataset

    /** A new sensor reports "unknown" with no attributes. */
    constructor(geojson: Dataset)
      ensures state == Unknown && attributes == map[] && this.geojson == geojson
    {
      state := Unknown;
      attributes := map[];
      this.geojson := geojson;
    }

    /** The text shown as the entity's value. */
    function NativeValue(): (r: string)
      reads this
      ensures r == "unknown" <==> state == Unknown
      ensures r == "Out of Coverage" <==> state == OutOfCoverage
      ensures r == "Sweeping Now" <==> state == SweepingNow
      ensures r == "Warning" <==> state == Warning
      ensures r == "Clear" <==> state == Clear
      ensures r == "No Schedule Found" <==> state == NoScheduleFound
      ensures r == "Error" <==> state == Error
    {
      StateText(state)
    }

    /** _update_sensor_state: recompute the state and attributes from the
      tracker.  Every path sets the state; the attributes are replaced
      wholesale on "Out of Coverage" and on a match, then extended. */
    method UpdateState(m: MathLib, host: Host, tracker: Option<TrackerState>,
                       gps: Option<seq<(string, Json)>>, now: int)
      modifies this`state, this`attributes
      ensures Outcome(state, attributes) == Update(m, host, geojson, tracker, gps, now, old(attributes))
    {
      if tracker.None? || tracker.value.state == "unknown" || tracker.value.state == "unavailable" {
        state := Unknown;
        return;
      }
      var lat := ToFloat(host.parseFloat, GetOr(tracker.value.attributes, "latitude", JNum(0.0)));
      var lon := ToFloat(host.parseFloat, GetOr(tracker.value.attributes, "longitude", JNum(0.0)));
      if lat.None? || lon.None? {
        state := Error;
        return;
      }
      var rotation := RotationOf(host.parseFloat, NormalizeHeading(SelectHeading(tracker.value.attributes, gps)));
      if rotation.None? {
        state := Error;  // OverflowError from int(inf)
        return;
      }
      assert lat == Coordinate(host, tracker.value, "latitude");
      assert lon == Coordinate(host, tracker.value, "longitude");
      assert rotation == Rotation(host.parseFloat, tracker.value.attributes, gps);
      var result := NoMatch;
      if lat.value.Finite? && lon.value.Finite? {
        result := FindCleaningData(m, geojson, lat.value.r, lon.value.r, rotation.value);
      }
      assert result == Match(m, geojson, lat.value, lon.value, rotation.value);
      if result.NoMatch? {
        state := OutOfCoverage;
        attributes := map[Latitude := FloatJson(lat.value), Longitude := FloatJson(lon.value),
                          Reason := JStr("no_segment_match")];
        return;
      }
      if result.PropertiesMissing? {
        state := Error;
        return;
      }
      RecordCleaning(host, result.result, now);
    }

    /** The rest of the update once a segment matched: the match attributes,
      the next-cleaning entry, and the state its time gives. */
    method RecordCleaning(host: Host, res: MatchResult, now: int)
      modifies this`state, this`attributes
      ensures Outcome(state, attributes) == CleaningOutcome(host, res, now)
    {
      attributes := map[Street := res.street, Side := JStr(res.parkedOnSide),
                        DistanceToSegment := JNum(res.distance), Median := JBool(res.median)];
      var next := ParseNextCleaning(host.parseIso, res.nextCleaning);
      if next.attribute.Some? {
        attributes := attributes[NextCleaningEntry := next.attribute.value];
      }
      if next.time.NotAString? {
        state := Error;  // TypeError from fromisoformat
        return;
      }
      if next.time.At? {
        var cleaning := next.time.dt;
        if cleaning.Naive? {
          state := Error;  // TypeError: naive minus aware
          return;
        }
        var hoursUntil := HoursUntil(cleaning.instant, now);
        attributes := attributes[CleaningInHours := JNum(Round1(hoursUntil))];
        attributes := attributes[NextCleaningStart := JStr(host.isoFormat(cleaning))];
        if hoursUntil < 0.0 {
          if hoursUntil > -2.0 {
            state := SweepingNow;
          } else {
            state := Clear;
          }
        } else if hoursUntil < 24.0 {
          state := Warning;
        } else {
          state := Clear;
        }
      } else {
        state := NoScheduleFound;
        attributes := attributes[CleaningInHours := JNum(-1.0)];
      }
    }
  }
}
