/** How the sensor turns a tracker's heading attribute into a whole number of
    degrees: the attribute priority, the unwrapping of a nested object, the
    compass-point names and Python's `int(float(x)) % 360`. */
module Heading {
  import opened JsonValues

  /** A Python float. */
  datatype Float = Finite(r: real) | Special(kind: NonFinite)

  /** `float(v)`; None when it raises (ValueError for a string that is not a
      number, TypeError for None, a list or a dict).  Parsing a string is the
      host's `parse`, which answers None for text that is not a number. */
  function ToFloat(parse: string -> Option<Float>, v: Json): (f: Option<Float>)
    ensures v.JNum? ==> f == Some(Finite(v.n))
    ensures v.JBool? ==> f == Some(Finite(if v.b then 1.0 else 0.0))
    ensures v.JNonFinite? ==> f == Some(Special(v.kind))
    ensures v.JNull? || v.JArr? || v.JObj? ==> f.None?
  {
    match v
    case JNum(n) => Some(Finite(n))
    case JBool(b) => Some(Finite(if b then 1.0 else 0.0))
    case JNonFinite(k) => Some(Special(k))
    case JStr(s) => parse(s)
    case _ => None
  }

  /** `int(x)` for a finite float: truncation toward zero. */
  function Trunc(x: real): (n: int)
    ensures x >= 0.0 ==> 0 <= n && n as real <= x < n as real + 1.0
    ensures x < 0.0 ==> n <= 0 && n as real - 1.0 < x <= n as real
  {
    if x >= 0.0 then x.Floor else -((-x).Floor)
  }

  /** The compass points the sensor understands, in upper case, and their bearings. */
  function CompassDegrees(key: string): (d: Option<int>)
    ensures d.Some? ==> 0 <= d.value < 360 && d.value % 45 == 0
  {
    match key
    case "N" => Some(0)
    case "NORTH" => Some(0)
    case "NE" => Some(45)
    case "NORTHEAST" => Some(45)
    case "E" => Some(90)
    case "EAST" => Some(90)
    case "SE" => Some(135)
    case "SOUTHEAST" => Some(135)
    case "S" => Some(180)
    case "SOUTH" => Some(180)
    case "SW" => Some(225)
    case "SOUTHWEST" => Some(225)
    case "W" => Some(270)
    case "WEST" => Some(270)
    case "NW" => Some(315)
    case "NORTHWEST" => Some(315)
    case _ => None
  }

  /** The abbreviated and the spelled-out name of each of the eight compass
      points give the same bearing, and the eight bearings are the multiples
      of 45 degrees. */
  lemma CompassNamesAgree()
    ensures forall k :: 0 <= k < 8 ==>
              && CompassDegrees(["N", "NE", "E", "SE", "S", "SW", "W", "NW"][k]) == Some(45 * k)
              && CompassDegrees(["NORTH", "NORTHEAST", "EAST", "SOUTHEAST", "SOUTH", "SOUTHWEST", "WEST", "NORTHWEST"][k]) == Some(45 * k)
  {
    var short := ["N", "NE", "E", "SE", "S", "SW", "W", "NW"];
    var long := ["NORTH", "NORTHEAST", "EAST", "SOUTHEAST", "SOUTH", "SOUTHWEST", "WEST", "NORTHWEST"];
    forall k | 0 <= k < 8
      ensures CompassDegrees(short[k]) == Some(45 * k) && CompassDegrees(long[k]) == Some(45 * k)
    {
      if k == 0 { } else if k == 1 { } else if k == 2 { } else if k == 3 { }
      else if k == 4 { } else if k == 5 { } else if k == 6 { } else { }
    }
  }

  /** The characters Python's `str.strip()` removes. */
  predicate IsSpace(c: char) {
    || c == ' ' || '\t' <= c <= '\r' || '\U{001C}' <= c <= '\U{001F}'
    || c == '\U{0085}' || c == '\U{00A0}' || c == '\U{1680}' || '\U{2000}' <= c <= '\U{200A}'
    || c == '\U{2028}' || c == '\U{2029}' || c == '\U{202F}' || c == '\U{205F}' || c == '\U{3000}'
  }

  /** `s.strip()`: the text between the leading and the trailing white space. */
  function Strip(s: string): string {
    var i := LeadingSpaces(s);
    s[i..|s| - TrailingSpaces(s[i..])]
  }

  /** Strip removes exactly the white space at both ends: what remains is a
      slice of the text, everything cut off is white space, and the result
      neither starts nor ends with white space. */
  lemma StripTrimsBothEnds(s: string)
    ensures var r := Strip(s);
            && (r == [] || (!IsSpace(r[0]) && !IsSpace(r[|r| - 1])))
            && exists i, j :: 0 <= i <= j <= |s| && r == s[i..j]
                              && (forall k :: 0 <= k < i ==> IsSpace(s[k]))
                              && (forall k :: j <= k < |s| ==> IsSpace(s[k]))
  {
    var i := LeadingSpaces(s);
    var j := |s| - TrailingSpaces(s[i..]);
    assert forall k :: j <= k < |s| ==> s[k] == s[i..][k - i];
  }

  /** The number of white-space characters at the start of s. */
  function LeadingSpaces(s: string): (n: nat)
    ensures n <= |s|
    ensures forall k :: 0 <= k < n ==> IsSpace(s[k])
    ensures n < |s| ==> !IsSpace(s[n])
  {
    if s != [] && IsSpace(s[0]) then 1 + LeadingSpaces(s[1..]) else 0
  }

  /** The number of white-space characters at the end of s; all of s when it is only white space. */
  function TrailingSpaces(s: string): (n: nat)
    ensures n <= |s|
    ensures forall k :: |s| - n <= k < |s| ==> IsSpace(s[k])
    ensures n < |s| ==> !IsSpace(s[|s| - n - 1])
  {
    if s != [] && IsSpace(s[|s| - 1]) then 1 + TrailingSpaces(s[..|s| - 1]) else 0
  }

  /** Text with no white space at either end is left as it is. */
  lemma StripUnpadded(s: string)
    requires s == [] || (!IsSpace(s[0]) && !IsSpace(s[|s| - 1]))
    ensures Strip(s) == s
  {
  }

  /** `c.upper()` for an ASCII letter; other characters are left alone. */
  function UpperChar(c: char): char {
    if 'a' <= c <= 'z' then (c as int - 32) as char else c
  }

  /** `s.upper()` on ASCII letters. */
  function Upper(s: string): string {
    if s == [] then [] else [UpperChar(s[0])] + Upper(s[1..])
  }

  /** Upper case is taken character by character. */
  lemma {:induction false} UpperEachChar(s: string)
    ensures |Upper(s)| == |s|
    ensures forall k :: 0 <= k < |s| ==> Upper(s)[k] == UpperChar(s[k])
  {
    if s != [] {
      UpperEachChar(s[1..]);
    }
  }

  /** Text without lower-case ASCII letters is its own upper case. */
  lemma {:induction false} UpperUnchanged(s: string)
    requires forall k :: 0 <= k < |s| ==> !('a' <= s[k] <= 'z')
    ensures Upper(s) == s
  {
    if s != [] {
      UpperUnchanged(s[1..]);
    }
  }

  /** `attrs.get("course", attrs.get("heading", attrs.get("compassDirection")))`:
      the first of the three keys that is present wins, even when its value is
      None. */
  function HeadingAttribute(attrs: seq<(string, Json)>): (v: Json)
    ensures HasKey(attrs, "course") ==> Get(attrs, "course") == Some(v)
    ensures !HasKey(attrs, "course") && HasKey(attrs, "heading") ==> Get(attrs, "heading") == Some(v)
    ensures !HasKey(attrs, "course") && !HasKey(attrs, "heading") ==> v == GetOr(attrs, "compassDirection", JNull)
  {
    GetOr(attrs, "course", GetOr(attrs, "heading", GetOr(attrs, "compassDirection", JNull)))
  }

  /** The raw heading: the tracker's own attributes, and when they give None,
      those of the companion GPS sensor if it exists. */
  function SelectHeading(tracker: seq<(string, Json)>, gps: Option<seq<(string, Json)>>): (v: Json)
    ensures HeadingAttribute(tracker) != JNull ==> v == HeadingAttribute(tracker)
    ensures HeadingAttribute(tracker) == JNull && gps.Some? ==> v == HeadingAttribute(gps.value)
    ensures HeadingAttribute(tracker) == JNull && gps.None? ==> v == JNull
  {
    var v := HeadingAttribute(tracker);
    if v != JNull then v
    else if gps.Some? then HeadingAttribute(gps.value)
    else JNull
  }

  /** `isinstance(v, (int, float, str))`; a bool is an int. */
  predicate IsScalar(v: Json) {
    v.JNum? || v.JBool? || v.JNonFinite? || v.JStr?
  }

  /** The first value of an object that is a number or a string, or None. */
  function FirstScalar(fields: seq<(string, Json)>): (v: Json)
    ensures v == JNull <==> forall i :: 0 <= i < |fields| ==> !IsScalar(fields[i].1)
    ensures v != JNull ==> exists i :: 0 <= i < |fields| && fields[i].1 == v
                                       && forall j :: 0 <= j < i ==> !IsScalar(fields[j].1)
  {
    if fields == [] then JNull
    else if IsScalar(fields[0].1) then fields[0].1
    else
      var v := FirstScalar(fields[1..]);
      assert forall i :: 1 <= i < |fields| ==> fields[i] == fields[1..][i - 1];
      v
  }

  /** A heading given as an object:
      `d.get("heading") or d.get("value") or <first number or string value>`. */
  function UnwrapObject(fields: seq<(string, Json)>): (v: Json)
    ensures Truthy(GetOr(fields, "heading", JNull)) ==> v == GetOr(fields, "heading", JNull)
    ensures !Truthy(GetOr(fields, "heading", JNull)) && Truthy(GetOr(fields, "value", JNull))
            ==> v == GetOr(fields, "value", JNull)
    ensures !Truthy(GetOr(fields, "heading", JNull)) && !Truthy(GetOr(fields, "value", JNull))
            ==> v == FirstScalar(fields)
  {
    var h := GetOr(fields, "heading", JNull);
    var val := GetOr(fields, "value", JNull);
    if Truthy(h) then h else if Truthy(val) then val else FirstScalar(fields)
  }

  /** The heading value after unwrapping an object and translating a compass
      point name (stripped, upper-cased) to its bearing. */
  function NormalizeHeading(raw: Json): (v: Json)
    ensures !raw.JObj? && !raw.JStr? ==> v == raw
    ensures raw.JStr? && CompassDegrees(Upper(Strip(raw.s))).Some?
            ==> v == JNum(CompassDegrees(Upper(Strip(raw.s))).value as real)
    ensures raw.JStr? && CompassDegrees(Upper(Strip(raw.s))).None? ==> v == raw
    // an object is unwrapped first, and a compass name found inside is translated too
    ensures raw.JObj? && UnwrapObject(raw.fields).JStr?
            && CompassDegrees(Upper(Strip(UnwrapObject(raw.fields).s))).Some?
            ==> v == JNum(CompassDegrees(Upper(Strip(UnwrapObject(raw.fields).s))).value as real)
    ensures raw.JObj? && !(UnwrapObject(raw.fields).JStr?
                           && CompassDegrees(Upper(Strip(UnwrapObject(raw.fields).s))).Some?)
            ==> v == UnwrapObject(raw.fields)
  {
    var unwrapped := if raw.JObj? then UnwrapObject(raw.fields) else raw;
    if unwrapped.JStr? && CompassDegrees(Upper(Strip(unwrapped.s))).Some? then
      JNum(CompassDegrees(Upper(Strip(unwrapped.s))).value as real)
    else
      unwrapped
  }

  /** A compass point name written in upper case without padding becomes its bearing. */
  lemma CompassNameNormalized(name: string)
    requires CompassDegrees(name).Some?
    requires name == [] || (!IsSpace(name[0]) && !IsSpace(name[|name| - 1]))
    requires forall k :: 0 <= k < |name| ==> !('a' <= name[k] <= 'z')
    ensures NormalizeHeading(JStr(name)) == JNum(CompassDegrees(name).value as real)
  {
    StripUnpadded(name);
    UpperUnchanged(name);
  }

  /** `int(float(v)) % 360`, 0 for None or for a value float() or int() rejects
      with ValueError or TypeError (a NaN among them).  None stands for the
      OverflowError of `int(float('inf'))`, which the sensor does not catch. */
  function RotationOf(parse: string -> Option<Float>, v: Json): (r: Option<int>)
    ensures r.Some? ==> 0 <= r.value < 360
    ensures r.None? <==> v != JNull && ToFloat(parse, v).Some?
                         && ToFloat(parse, v).value.Special? && ToFloat(parse, v).value.kind != NaN
    ensures v != JNull && ToFloat(parse, v).Some? && ToFloat(parse, v).value.Finite?
            ==> r == Some(Trunc(ToFloat(parse, v).value.r) % 360)
    ensures v == JNull || ToFloat(parse, v).None? ==> r == Some(0)
    ensures v != JNull && ToFloat(parse, v) == Some(Special(NaN)) ==> r == Some(0)
  {
    if v == JNull then Some(0)
    else
      match ToFloat(parse, v)
      case None => Some(0)
      case Some(Finite(x)) => Some(Trunc(x) % 360)
      case Some(Special(NaN)) => Some(0)
      case Some(Special(_)) => None
  }

  /** The rotation the sensor passes to the matcher. */
  function Rotation(parse: string -> Option<Float>, tracker: seq<(string, Json)>, gps: Option<seq<(string, Json)>>): (r: Option<int>)
    ensures r.Some? ==> 0 <= r.value < 360
  {
    RotationOf(parse, NormalizeHeading(SelectHeading(tracker, gps)))
  }

  /** The rotation differs from the heading by a whole number of turns, once
      the fraction is cut off toward zero. */
  lemma RotationIsHeadingModTurn(parse: string -> Option<Float>, v: Json)
    requires v.JNum?
    ensures RotationOf(parse, v).Some?
    ensures exists turns: int :: RotationOf(parse, v).value == Trunc(v.n) - 360 * turns
  {
    var n := Trunc(v.n);
    assert RotationOf(parse, v).value == n - 360 * (n / 360);
  }

  /** A heading given as a number in [0, 360) is used as it is, cut to whole degrees. */
  lemma RotationOfNumber(parse: string -> Option<Float>, x: real)
    requires 0.0 <= x < 360.0
    ensures RotationOf(parse, JNum(x)) == Some(x.Floor)
  {
  }

  /** A tracker reporting `course: 90` yields rotation 90, whatever else it reports. */
  lemma CourseIsUsed(parse: string -> Option<Float>, attrs: seq<(string, Json)>, gps: Option<seq<(string, Json)>>)
    requires Get(attrs, "course") == Some(JNum(90.0))
    ensures Rotation(parse, attrs, gps) == Some(90)
  {
    assert SelectHeading(attrs, gps) == JNum(90.0);
    RotationOfNumber(parse, 90.0);
  }

  /** A tracker without `course` reporting `heading: 180` yields rotation 180. */
  lemma HeadingIsUsed(parse: string -> Option<Float>, attrs: seq<(string, Json)>, gps: Option<seq<(string, Json)>>)
    requires !HasKey(attrs, "course") && Get(attrs, "heading") == Some(JNum(180.0))
    ensures Rotation(parse, attrs, gps) == Some(180)
  {
    assert SelectHeading(attrs, gps) == JNum(180.0);
    RotationOfNumber(parse, 180.0);
  }

  /** The compass point name written upper-case and unpadded is its bearing. */
  lemma SouthwestIs225()
    ensures NormalizeHeading(JStr("SOUTHWEST")) == JNum(225.0)
  {
    var name := "SOUTHWEST";
    assert CompassDegrees(name) == Some(225);
    assert !IsSpace(name[0]) && !IsSpace(name[8]);
    assert forall k :: 0 <= k < |name| ==> !('a' <= name[k] <= 'z');
    CompassNameNormalized(name);
  }

  /** A heading wrapped in an object, `{"heading": "SW"}`, is unwrapped and
      translated: 225. */
  lemma WrappedCompassName()
    ensures NormalizeHeading(JObj([("heading", JStr("SW"))])) == JNum(225.0)
  {
    var name := "SW";
    assert UnwrapObject([("heading", JStr(name))]) == JStr(name);
    assert CompassDegrees(name) == Some(225);
    assert !IsSpace(name[0]) && !IsSpace(name[1]);
    assert forall k :: 0 <= k < |name| ==> !('a' <= name[k] <= 'z');
    StripUnpadded(name);
    UpperUnchanged(name);
  }

  /** A tracker with neither `course` nor `heading` reporting
      `compassDirection: "SOUTHWEST"` yields rotation 225. */
  lemma CompassDirectionIsTranslated(parse: string -> Option<Float>, attrs: seq<(string, Json)>,
                                     gps: Option<seq<(string, Json)>>)
    requires !HasKey(attrs, "course") && !HasKey(attrs, "heading")
    requires Get(attrs, "compassDirection") == Some(JStr("SOUTHWEST"))
    ensures Rotation(parse, attrs, gps) == Some(225)
  {
    assert SelectHeading(attrs, gps) == JStr("SOUTHWEST");
    SouthwestIs225();
    RotationOfNumber(parse, 225.0);
  }

  /** `course: None` hides a `heading` on the same entity: the sensor then
      looks at the GPS sensor, and without one the rotation is 0. */
  lemma NullCourseShadowsHeading(parse: string -> Option<Float>, attrs: seq<(string, Json)>)
    requires Get(attrs, "course") == Some(JNull)
    ensures Rotation(parse, attrs, None) == Some(0)
  {
    assert SelectHeading(attrs, None) == JNull;
  }
}
