/**
 * JSON values as `json.loads` hands them to the views, and the few Python
 * conversions the views apply to them (`dict.get`, `int(…)`, `str.lower` on
 * a value that must be a string).
 */
module Json {
  import opened Common

  /**
   * A decoded JSON value. A number with a fraction or an exponent is kept
   * as its exact decimal value, not as the double `json.loads` would round
   * it to.
   */
  datatype JsonValue =
    | JNull
    | JBool(b: bool)
    | JInt(i: int)
    | JFraction(r: real)
    | JString(s: string)
    | JArray(items: seq<JsonValue>)
    | JObject(members: map<string, JsonValue>)

  /** A request body: either text `json.loads` refuses, or the value it decodes. */
  datatype RequestBody = Malformed | Decoded(value: JsonValue)

  /**
   * `data.get(key, default)` on the decoded body: `None` when `data` is not a
   * dict (the call raises AttributeError); the member, or the default, otherwise.
   */
  function GetMember(data: JsonValue, key: string, default: JsonValue): (r: Option<JsonValue>)
    ensures r.None? <==> !data.JObject?
    ensures data.JObject? && key !in data.members ==> r == Some(default)
  {
    match data
    case JObject(m) => Some(if key in m then m[key] else default)
    case _ => None
  }

  /** `m.get(key, default)` on the members of a JSON object. */
  function Member(m: map<string, JsonValue>, key: string, default: JsonValue): JsonValue {
    if key in m then m[key] else default
  }

  /** `type(v).__name__` for the Python value `json.loads` builds. */
  function TypeName(v: JsonValue): string {
    match v
    case JNull => "NoneType"
    case JBool(_) => "bool"
    case JInt(_) => "int"
    case JFraction(_) => "float"
    case JString(_) => "str"
    case JArray(_) => "list"
    case JObject(_) => "dict"
  }

  /**
   * `str(v)` for a decoded value: what Django's text columns store for a
   * value that is not a string, and what an f-string shows.
   */
  function PyStr(v: JsonValue): string
    decreases v, 1
  {
    match v
    case JNull => "None"
    case JBool(b) => if b then "True" else "False"
    case JInt(i) => IntToString(i)
    case JFraction(x) => FloatText(x)
    case JString(s) => s
    case JArray(items) => "[" + JoinWith(seq(|items|, k requires 0 <= k < |items| => PyRepr(items[k])), ", ") + "]"
    case JObject(_) => "{}"
  }

  /** `repr(v)`, as a list shows its items: strings quoted, everything else as `str`. */
  function PyRepr(v: JsonValue): string
    decreases v, 2
  {
    if v.JString? then "'" + v.s + "'" else PyStr(v)
  }

  function JoinWith(parts: seq<string>, sep: string): string {
    if parts == [] then ""
    else if |parts| == 1 then parts[0]
    else parts[0] + sep + JoinWith(parts[1..], sep)
  }

  /** `str(x)` for a float: sign, integral digits, '.', and the fraction ('0' when there is none). */
  function FloatText(x: real): string {
    if x < 0.0 then "-" + UnsignedFloatText(-x) else UnsignedFloatText(x)
  }

  function UnsignedFloatText(a: real): string
    requires a >= 0.0
  {
    DecimalText(a.Floor, a - a.Floor as real)
  }

  /** The digits of a non-negative number given as its integral part and its fraction. */
  function DecimalText(whole: nat, fraction: real): string
    requires 0.0 <= fraction < 1.0
  {
    NatToString(whole) + "." + (if fraction == 0.0 then "0" else FractionDigits(fraction, 17))
  }

  /** The decimal digits of a fraction in [0, 1), at most `places` of them. */
  function FractionDigits(f: real, places: nat): (r: string)
    requires 0.0 <= f < 1.0
    ensures |r| <= places && AllDigits(r)
    decreases places
  {
    if f == 0.0 || places == 0 then ""
    else
      var scaled := f * 10.0;
      var d := scaled.Floor;
      [DigitChar(d)] + FractionDigits(scaled - d as real, places - 1)
  }

  /** A float with no fraction shows as its integer followed by ".0". */
  lemma PyStrOfIntegralFloat(k: int)
    ensures PyStr(JFraction(k as real)) == IntToString(k) + ".0"
  {
    var n: nat := if k < 0 then -k else k;
    FloorOfSum(n, 0.0);
    assert UnsignedFloatText(n as real) == DecimalText(n, 0.0);
  }

  /** A float with one decimal place shows that one digit after the point. */
  lemma PyStrOfOneDecimalFloat(k: nat, d: nat)
    requires 1 <= d <= 9
    ensures PyStr(JFraction(k as real + d as real / 10.0)) == NatToString(k) + "." + [DigitChar(d)]
  {
    var f := d as real / 10.0;
    var x := k as real + f;
    FloorOfSum(k, f);
    OneFractionDigit(d);
    assert DecimalText(k, f) == NatToString(k) + "." + [DigitChar(d)];
    assert UnsignedFloatText(x) == DecimalText(k, f);
    assert PyStr(JFraction(x)) == UnsignedFloatText(x);
  }

  lemma FloorOfSum(k: nat, f: real)
    requires 0.0 <= f < 1.0
    ensures (k as real + f).Floor == k
  {
  }

  lemma OneFractionDigit(d: nat)
    requires 1 <= d <= 9
    ensures FractionDigits(d as real / 10.0, 17) == [DigitChar(d)]
  {
    var f := d as real / 10.0;
    assert f * 10.0 == d as real;
    assert (f * 10.0).Floor == d;
    assert FractionDigits(f * 10.0 - d as real, 16) == "";
  }

  /** A list of strings shows each one quoted, separated by ", ". */
  lemma PyStrOfStringPair(a: string, b: string)
    ensures PyStr(JArray([JString(a), JString(b)])) == "['" + a + "', '" + b + "']"
  {
    var items := [JString(a), JString(b)];
    var parts := seq(|items|, k requires 0 <= k < |items| => PyRepr(items[k]));
    assert parts == ["'" + a + "'", "'" + b + "'"];
    assert JoinWith(parts, ", ") == "'" + a + "'" + ", " + "'" + b + "'";
  }

  /** Python's `int(x)` on a float: the value truncated toward zero. */
  function Truncate(x: real): (r: int)
    ensures x >= 0.0 ==> r as real <= x < r as real + 1.0
    ensures x < 0.0 ==> r as real - 1.0 < x <= r as real
  {
    if x >= 0.0 then x.Floor else -((-x).Floor)
  }

  /**
   * Python's `int(v)` for a decoded value: an integer is itself, a fraction
   * is truncated, a boolean is 0 or 1, a string is read as a decimal
   * integer; anything else raises (here: `None`).
   */
  function IntOf(v: JsonValue): (r: Option<int>)
    ensures v.JInt? ==> r == Some(v.i)
    ensures v.JFraction? ==> r == Some(Truncate(v.r))
    ensures v.JNull? || v.JArray? || v.JObject? ==> r.None?
  {
    match v
    case JInt(i) => Some(i)
    case JFraction(x) => Some(Truncate(x))
    case JBool(b) => Some(if b then 1 else 0)
    case JString(s) => ParseInt(s)
    case _ => None
  }

  /**
   * Python's `float(v)` for a decoded value: numbers and booleans convert,
   * a string must read as a decimal, and null, lists and objects raise.
   */
  function FloatOf(v: JsonValue): (r: Option<real>)
    ensures v.JInt? ==> r == Some(v.i as real)
    ensures v.JFraction? ==> r == Some(v.r)
    ensures v.JNull? || v.JArray? || v.JObject? ==> r.None?
  {
    match v
    case JInt(i) => Some(i as real)
    case JFraction(x) => Some(x)
    case JBool(b) => Some(if b then 1.0 else 0.0)
    case JString(s) => ParseDecimal(s)
    case _ => None
  }

  /** `int(str(i))` read from a JSON string is the integer again. */
  lemma IntOfDecimalString(i: int)
    ensures IntOf(JString(IntToString(i))) == Some(i)
  {
    ParseIntRoundTrip(i);
  }
}
