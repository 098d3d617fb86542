/** The Python values the integration reads out of decoded GeoJSON documents
    and out of Home Assistant state attributes.  An object keeps the order of
    its keys, as a Python dict does, so it is an ordered list of key/value
    pairs.  Integers and floats are both numbers; a float that is infinite or
    not a number has a case of its own. */
module JsonValues {

  datatype Option<+T> = None | Some(value: T)

  datatype NonFinite = PosInf | NegInf | NaN

  datatype Json =
    | JNull
    | JBool(b: bool)
    | JNum(n: real)
    | JNonFinite(kind: NonFinite)
    | JStr(s: string)
    | JArr(items: seq<Json>)
    | JObj(fields: seq<(string, Json)>)

  /** `d.get(key)`: the value stored under `key`, or None when the key is absent.
      The model assumes the keys of an object are distinct, as those of a
      Python dict are; a document repeating a key is not represented. */
  function Get(fields: seq<(string, Json)>, key: string): (r: Option<Json>)
    ensures r.None? <==> forall i :: 0 <= i < |fields| ==> fields[i].0 != key
    ensures r.Some? ==> exists i :: 0 <= i < |fields| && fields[i] == (key, r.value)
                                    && forall j :: 0 <= j < i ==> fields[j].0 != key
  {
    if fields == [] then None
    else if fields[0].0 == key then Some(fields[0].1)
    else Get(fields[1..], key)
  }

  /** `key in d` */
  predicate HasKey(fields: seq<(string, Json)>, key: string) {
    Get(fields, key).Some?
  }

  /** `d.get(key, default)` */
  function GetOr(fields: seq<(string, Json)>, key: string, default: Json): Json {
    match Get(fields, key)
    case Some(v) => v
    case None => default
  }

  /** Python truthiness: None, False, zero, the empty string and empty
      containers are false; everything else is true. */
  predicate Truthy(v: Json)
    ensures Truthy(v) <==> v != JNull && v != JBool(false) && v != JNum(0.0) && v != JStr("")
                           && v != JArr([]) && v != JObj([])
  {
    match v
    case JNull => false
    case JBool(b) => b
    case JNum(n) => n != 0.0
    case JNonFinite(_) => true
    case JStr(s) => s != ""
    case JArr(items) => items != []
    case JObj(fields) => fields != []
  }
}
