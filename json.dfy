/**
 * Parsed JSON values, as `response.json()` hands them to the support page, and
 * the few JavaScript tests the page applies to them.
 */
module Json {

  /** A parsed JSON value. An object's later duplicate key wins, so a map suffices. */
  datatype Json =
    | Null
    | Bool(b: bool)
    | Number(n: real)
    | Str(s: string)
    | Arr(items: seq<Json>)
    | Obj(fields: map<string, Json>)

  /** JavaScript truthiness of a parsed value (NaN cannot come out of a JSON parse). */
  predicate Truthy(v: Json)
    // null is never truthy; arrays and objects, even empty ones, always are.
    ensures v.Null? ==> !Truthy(v)
    ensures v.Arr? || v.Obj? ==> Truthy(v)
  {
    match v
    case Null => false
    case Bool(b) => b
    case Number(n) => n != 0.0
    case Str(s) => s != ""
    case Arr(_) => true
    case Obj(_) => true
  }

  /** JavaScript `typeof` of a parsed value; `null` and arrays report "object". */
  function TypeOf(v: Json): (t: string)
    ensures t == "object" <==> v.Null? || v.Arr? || v.Obj?
  {
    match v
    case Null => "object"
    case Bool(_) => "boolean"
    case Number(_) => "number"
    case Str(_) => "string"
    case Arr(_) => "object"
    case Obj(_) => "object"
  }

  /**
   * The page's guard `v && typeof v === "object" && !Array.isArray(v)`: it holds
   * exactly of JSON objects.
   */
  function IsPlainObject(v: Json): (b: bool)
    ensures b <==> v.Obj?
  {
    Truthy(v) && TypeOf(v) == "object" && !v.Arr?
  }
}
