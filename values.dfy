/** Python values as the handlers see them, the caller's identity, and HTTP errors.

    Row columns that the handlers write with `setattr`, the data returned by the
    document extractor and the items of a request dictionary are dynamically typed in
    the source; `Value` is that dynamic type (JSON-like, plus datetimes). */
module Values {

  /** Primary keys and user ids (UUIDs compared through `str()`). */
  type Id = string

  /** A point in time; only compared, never computed with. */
  type Time = int

  datatype Option<+T> = None | Some(value: T)

  datatype Value =
    | VNone
    | VBool(b: bool)
    | VInt(i: int)
    | VFloat(f: real)
    | VStr(s: string)
    | VTime(t: Time)
    | VList(items: seq<Value>)
    | VDict(entries: map<string, Value>)

  /** Python truthiness (`if value:`); a datetime is always true. */
  predicate Truthy(v: Value) {
    match v
    case VNone => false
    case VBool(b) => b
    case VInt(i) => i != 0
    case VFloat(f) => f != 0.0
    case VStr(s) => s != ""
    case VTime(_) => true
    case VList(items) => items != []
    case VDict(entries) => entries != map[]
  }

  /** `d.get(key, default)` */
  function Get(d: map<string, Value>, key: string, default: Value): Value {
    if key in d then d[key] else default
  }

  /** The numeric value of a bool, int or float (Python's `bool` is an `int`); None for
      values that `> 0` refuses with a TypeError. */
  function Number(v: Value): Option<real> {
    match v
    case VBool(b) => Some(if b then 1.0 else 0.0)
    case VInt(i) => Some(i as real)
    case VFloat(f) => Some(f)
    case _ => None
  }

  /** Python `==` at the top level: numbers compare by value (`5 == 5.0`, `True == 1`),
      everything else structurally. */
  predicate PyEq(a: Value, b: Value) {
    if Number(a).Some? && Number(b).Some? then Number(a).value == Number(b).value else a == b
  }

  datatype Role = Supplier | Forwarder | Buyer

  /** A user row: the caller of a request, or the forwarder named in a quote response. */
  datatype User = User(id: Id, role: Role, name: string, companyName: Option<string>)

  /** An `HTTPException`: status code and detail message. */
  datatype HttpError = HttpError(code: int, detail: string)

  /** What a handler answers: a response body or an HTTP error. */
  datatype Result<+T> = Ok(value: T) | Err(error: HttpError)

  /** The answer to an exception the handler does not catch (AttributeError, TypeError, ...). */
  const InternalError := HttpError(500, "Internal Server Error")
}
