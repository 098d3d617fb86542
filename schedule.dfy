/** The cleaning-window half of the sensor update: which timestamp the
    matched curb side announces, how many hours away it is, and which state
    that distance puts the sensor in. */
module Schedule {
  import opened JsonValues

  /** A value returned by `datetime.fromisoformat`.  An aware date-time is an
      instant (microseconds since the epoch); a naive one is only a wall-clock
      reading (microseconds), and cannot be subtracted from an aware one. */
  datatype DateTime = Aware(instant: int) | Naive(wallClock: int)

  /** The states the sensor reports. */
  datatype SensorState = Unknown | OutOfCoverage | SweepingNow | Warning | Clear | NoScheduleFound | Error

  /** The text Home Assistant shows for a state. */
  function StateText(s: SensorState): string {
    match s
    case Unknown => "unknown"
    case OutOfCoverage => "Out of Coverage"
    case SweepingNow => "Sweeping Now"
    case Warning => "Warning"
    case Clear => "Clear"
    case NoScheduleFound => "No Schedule Found"
    case Error => "Error"
  }

  const MICROS_PER_HOUR: int := 3600000000

  /** `(cleaning - now).total_seconds() / 3600.0` for two aware date-times:
      positive before the cleaning, negative after it, and a whole number
      of hours between the instants gives that number. */
  function HoursUntil(cleaning: int, now: int): (h: real)
    ensures h > 0.0 <==> cleaning > now
    ensures h == 0.0 <==> cleaning == now
    ensures forall k: int {:trigger k * MICROS_PER_HOUR} :: cleaning - now == k * MICROS_PER_HOUR ==> h == k as real
  {
    (cleaning - now) as real / 3600000000.0
  }

  /** The state for a cleaning that starts `hours` from now: sweeping for the
      two hours after the start (an assumed duration), a warning during the
      day before it, clear otherwise.  Exactly two hours after the start is
      already clear. */
  function Urgency(hours: real): (s: SensorState)
    ensures s == SweepingNow <==> -2.0 < hours < 0.0
    ensures s == Warning <==> 0.0 <= hours < 24.0
    ensures s == Clear <==> hours <= -2.0 || 24.0 <= hours
  {
    if hours < 0.0 then
      if hours > -2.0 then SweepingNow else Clear
    else if hours < 24.0 then Warning
    else Clear
  }

  /** The classification read off the two instants directly: the windows are
      whole numbers of hours, so no rounding of the hour count is involved. */
  lemma UrgencyByMicroseconds(cleaning: int, now: int)
    ensures Urgency(HoursUntil(cleaning, now)) == SweepingNow <==>
              now - 2 * MICROS_PER_HOUR < cleaning < now
    ensures Urgency(HoursUntil(cleaning, now)) == Warning <==>
              now <= cleaning < now + 24 * MICROS_PER_HOUR
    ensures Urgency(HoursUntil(cleaning, now)) == Clear <==>
              cleaning <= now - 2 * MICROS_PER_HOUR || now + 24 * MICROS_PER_HOUR <= cleaning
  {
    var d := cleaning - now;
    assert HoursUntil(cleaning, now) * 3600000000.0 == d as real;
  }

  function Abs(x: real): real { if x < 0.0 then -x else x }

  /** Round to the nearest integer, ties to the even one, as Python's `round`
      does. */
  function RoundHalfEven(x: real): (n: int)
    ensures Abs(n as real - x) <= 0.5
    ensures Abs(n as real - x) == 0.5 ==> n % 2 == 0
  {
    var f := x.Floor;
    var frac := x - f as real;
    if frac < 0.5 then f
    else if frac > 0.5 then f + 1
    else if f % 2 == 0 then f
    else f + 1
  }

  /** No integer is nearer to x than the rounded value. */
  lemma RoundHalfEvenIsNearest(x: real, k: int)
    ensures Abs(RoundHalfEven(x) as real - x) <= Abs(k as real - x)
  {
    var f := x.Floor;
    if k <= f {
      assert Abs(k as real - x) >= x - f as real;
    } else {
      assert Abs(k as real - x) >= (f + 1) as real - x;
    }
  }

  /** `round(hours, 1)` on an exact value: a whole number of tenths, the
      nearest one, ties going to an even number of tenths. */
  function Round1(hours: real): (r: real)
    ensures (r * 10.0).Floor as real == r * 10.0
    ensures Abs(r - hours) <= 0.05
    ensures Abs(r - hours) == 0.05 ==> (r * 10.0).Floor % 2 == 0
  {
    var n := RoundHalfEven(hours * 10.0);
    assert n as real / 10.0 * 10.0 == n as real;
    assert Abs(n as real - hours * 10.0) == 10.0 * Abs(n as real / 10.0 - hours);
    n as real / 10.0
  }

  /** No number of tenths is nearer to the hour count than the rounded one. */
  lemma Round1IsNearestTenth(hours: real, k: int)
    ensures Abs(Round1(hours) - hours) <= Abs(k as real / 10.0 - hours)
  {
    var n := RoundHalfEven(hours * 10.0);
    RoundHalfEvenIsNearest(hours * 10.0, k);
    assert Abs(n as real - hours * 10.0) == 10.0 * Abs(n as real / 10.0 - hours);
    assert Abs(k as real - hours * 10.0) == 10.0 * Abs(k as real / 10.0 - hours);
  }

  /** What became of the announced cleaning time: nothing usable (which
      includes an unparseable string), a parsed date-time, or a value that
      is not a string at all, on which `fromisoformat` raises TypeError. */
  datatype CleaningTime = NoTime | At(dt: DateTime) | NotAString

  /** The `next_cleaning` attribute the update records (None when it records
      none) and the cleaning time it goes on with. */
  datatype NextCleaning = NextCleaning(attribute: Option<Json>, time: CleaningTime)

  /** `fromisoformat` on a string; ValueError (None) means no time. */
  function ParseTime(parse: string -> Option<DateTime>, s: string): CleaningTime {
    match parse(s)
    case Some(dt) => At(dt)
    case None => NoTime
  }

  /** The cleaning entry of the matched side: an object's `NextCleaning`
      value, or the entry itself when it is a string; "Unknown", and for an
      object any falsy value, is not parsed. */
  function ParseNextCleaning(parse: string -> Option<DateTime>, raw: Json): (n: NextCleaning)
    ensures raw.JObj? ==> n.attribute.Some?
    ensures raw.JObj? && HasKey(raw.fields, "NextCleaning") ==>
              n.attribute == Get(raw.fields, "NextCleaning")
    ensures raw.JObj? && !HasKey(raw.fields, "NextCleaning") ==> n == NextCleaning(Some(JNull), NoTime)
    ensures raw.JStr? ==> n.attribute == Some(raw)
    ensures !raw.JObj? && !raw.JStr? ==> n == NextCleaning(None, NoTime)
    // a parsed time is the parse of the recorded attribute
    ensures n.time.At? ==> n.attribute.Some? && n.attribute.value.JStr?
                           && n.attribute.value.s != "Unknown"
                           && parse(n.attribute.value.s) == Some(n.time.dt)
    ensures n.attribute.Some? && n.attribute.value.JStr? && n.attribute.value.s !in {"", "Unknown"} &&
            parse(n.attribute.value.s).Some? ==>
              n.time == At(parse(n.attribute.value.s).value)
    // only an object can announce a value of the wrong type
    ensures n.time.NotAString? <==> raw.JObj? && n.attribute.Some? && Truthy(n.attribute.value)
                                    && !n.attribute.value.JStr?
  {
    match raw
    case JObj(fields) =>
      var v := GetOr(fields, "NextCleaning", JNull);
      var time :=
        if !Truthy(v) || v == JStr("Unknown") then NoTime
        else if v.JStr? then ParseTime(parse, v.s)
        else NotAString;
      NextCleaning(Some(v), time)
    case JStr(s) =>
      NextCleaning(Some(raw), if s != "Unknown" then ParseTime(parse, s) else NoTime)
    case _ =>
      NextCleaning(None, NoTime)
  }

  /** Every way of not getting a time: no entry of a usable kind, no
      `NextCleaning` key, the word "Unknown", or a string that does not parse. */
  lemma NoTimeCases(parse: string -> Option<DateTime>, raw: Json)
    requires parse("") == None
    ensures ParseNextCleaning(parse, raw).time.NoTime? <==>
              (!raw.JObj? && !raw.JStr?)
              || (raw.JObj? && !Truthy(GetOr(raw.fields, "NextCleaning", JNull)))
              || (raw.JObj? && GetOr(raw.fields, "NextCleaning", JNull) == JStr("Unknown"))
              || (raw.JObj? && GetOr(raw.fields, "NextCleaning", JNull).JStr?
                  && parse(GetOr(raw.fields, "NextCleaning", JNull).s).None?)
              || raw == JStr("Unknown")
              || (raw.JStr? && parse(raw.s).None?)
  {
  }
}
