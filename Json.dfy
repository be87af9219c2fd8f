/**
 * The JSON values a configuration file holds once `json.load` has parsed
 * it, and the Python type tests and conversions the modules apply to them.
 */
module Json {
  import opened Text

  datatype Json =
    | JNull
    | JBool(b: bool)
    | JInt(i: int)
    | JFloat(r: real)
    | JStr(s: string)
    | JArray(items: seq<Json>)
    | JObject(fields: map<string, Json>)

  /** `isinstance(j, int)`: in Python `bool` is a subclass of `int`. */
  predicate IsInt(j: Json)
  {
    j.JInt? || j.JBool?
  }

  /** The integer an `int` instance stands for (`True == 1`, `False == 0`). */
  function IntOf(j: Json): int
    requires IsInt(j)
  {
    if j.JBool? then (if j.b then 1 else 0) else j.i
  }

  /** `isinstance(j, (int, float, str))`. */
  predicate IsNumberOrString(j: Json)
  {
    j.JInt? || j.JBool? || j.JFloat? || j.JStr?
  }

  /** `int(r)` for a float: truncation toward zero. */
  function Truncate(r: real): (t: int)
    ensures r >= 0.0 ==> t as real <= r < t as real + 1.0
    ensures r < 0.0 ==> t as real - 1.0 < r <= t as real
  {
    if r >= 0.0 then r.Floor else -((-r).Floor)
  }

  /** `int(j)` for an int, float or str; `None` is the ValueError. */
  function PyInt(j: Json): (r: Option<int>)
    requires IsNumberOrString(j)
    ensures IsInt(j) ==> r == Some(IntOf(j))
    ensures j.JFloat? ==> r == Some(Truncate(j.r))
    ensures j.JStr? ==> r == ParseInt(j.s)
  {
    match j
    case JStr(s) => ParseInt(s)
    case JFloat(x) => Some(Truncate(x))
    case _ => Some(IntOf(j))
  }

  /** `int(str(n))` read back from text gives `n`: a string field holding a rendered integer coerces to it. */
  lemma PyIntOfRenderedInt(n: int)
    ensures PyInt(JStr(IntToString(n))) == Some(n)
  {
    IntToStringRoundTrip(n);
  }
}
