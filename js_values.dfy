/**
 * The JavaScript values that reach the handlers: fields of a parsed JSON
 * request body and payloads decoded from a token, together with the bits of
 * JavaScript semantics the handlers rely on (truthiness, `typeof`, property
 * lookup, `.length`, `String.prototype.startsWith`).
 */
module JsValues {

  datatype Option<T> = None | Some(value: T)

  /** A JavaScript value. Numbers are modelled as unbounded integers. */
  datatype Value =
    | Undefined
    | Null
    | Bool(b: bool)
    | Num(n: int)
    | Str(s: string)
    | Arr(items: seq<Value>)
    | Obj(fields: map<string, Value>)

  /** What `typeof` answers (the kinds that JSON and token payloads can produce). */
  datatype TypeTag = UndefinedType | ObjectType | BooleanType | NumberType | StringType

  /** A parsed request body: the fields of the JSON object. */
  type Body = map<string, Value>

  /** `req.body.key` after destructuring: a missing key reads as `undefined`. */
  function Field(body: Body, key: string): Value {
    if key in body then body[key] else Undefined
  }

  /** `!!v`: everything is truthy except undefined, null, false, 0 and "". */
  predicate Truthy(v: Value) {
    match v
    case Undefined => false
    case Null => false
    case Bool(b) => b
    case Num(n) => n != 0
    case Str(s) => s != ""
    case Arr(_) => true
    case Obj(_) => true
  }

  /** `v === null || v === undefined`, the test behind `??`. */
  predicate Nullish(v: Value) {
    v.Undefined? || v.Null?
  }

  function TypeOf(v: Value): TypeTag {
    match v
    case Undefined => UndefinedType
    case Null => ObjectType
    case Bool(_) => BooleanType
    case Num(_) => NumberType
    case Str(_) => StringType
    case Arr(_) => ObjectType
    case Obj(_) => ObjectType
  }

  /**
   * `key in v`, as an own-field lookup for the keys this model reads
   * ("userId", "email"). Of an array only "length" is recorded; its index
   * keys and inherited keys such as "toString" are not modelled.
   */
  predicate HasProperty(v: Value, key: string) {
    match v
    case Obj(fields) => key in fields
    case Arr(_) => key == "length"
    case _ => false
  }

  /** `v[key]` for the keys this model reads (object fields). */
  function Property(v: Value, key: string): Value {
    if v.Obj? && key in v.fields then v.fields[key] else Undefined
  }

  /**
   * `v.length` as a number, or None where it reads as `undefined` (numbers,
   * booleans, objects without a numeric "length" field).
   */
  function LengthOf(v: Value): Option<int> {
    match v
    case Str(s) => Some(|s|)
    case Arr(items) => Some(|items|)
    case Obj(fields) =>
      if "length" in fields && fields["length"].Num? then Some(fields["length"].n) else None
    case _ => None
  }

  /** `v.length < n`; a comparison with `undefined` is false. */
  predicate LengthBelow(v: Value, n: int) {
    LengthOf(v).Some? && LengthOf(v).value < n
  }

  /** `s.startsWith(prefix)`: exact, case-sensitive comparison of the first characters. */
  predicate StartsWith(s: string, prefix: string) {
    |prefix| <= |s| && s[..|prefix|] == prefix
  }
}
