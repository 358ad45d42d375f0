// Runtime validators for untrusted pack JSON (src/jei/utils/assert.ts): each either returns
// its input unchanged or raises a `PackValidationError` naming the JSON path that failed.
module Validators {
  import opened Wrappers
  import opened JsValues

  /** `PackValidationError`: `name`, the message `"<jsonPath>: <reason>"`, and the path itself. */
  datatype PackValidationError = PackValidationError(name: string, message: string, jsonPath: string)

  /** `new PackValidationError(jsonPath, reason)` */
  function ValidationError(jsonPath: string, reason: string): (e: PackValidationError)
    ensures e.name == "PackValidationError" && e.jsonPath == jsonPath
    ensures |e.message| == |jsonPath| + 2 + |reason|
    ensures e.message[..|jsonPath|] == jsonPath && e.message[|jsonPath| + 2..] == reason
  {
    PackValidationError("PackValidationError", jsonPath + ": " + reason, jsonPath)
  }

  /** Two errors with the same path and message came from the same reason. */
  lemma ValidationErrorInjective(path: string, a: string, b: string)
    ensures ValidationError(path, a) == ValidationError(path, b) ==> a == b
  {
    if ValidationError(path, a) == ValidationError(path, b) {
      assert ValidationError(path, a).message[|path| + 2..] == a;
    }
  }

  /** JavaScript's `typeof v`. */
  function TypeOf(v: JsValue): string {
    match v
    case JUndefined => "undefined"
    case JNull => "object"
    case JBool(_) => "boolean"
    case JNum(_) => "number"
    case JStr(_) => "string"
    case JBigInt(_) => "bigint"
    case JSymbol(_) => "symbol"
    case JFunction => "function"
    case JArray(_) => "object"
    case JObject(_) => "object"
  }

  /** `isRecord(value)`: a plain object, which is what remains of `typeof "object"` without null and arrays. */
  function IsRecord(v: JsValue): (r: bool)
    ensures r <==> TypeOf(v) == "object" && !v.JNull? && !v.JArray?
  {
    v.JObject?
  }

  /** The common shape of every `assertX`: the value when the check holds, else the error. */
  function Check(v: JsValue, jsonPath: string, ok: bool, reason: string): (r: Result<JsValue, PackValidationError>)
    ensures ok <==> r.Success?
    ensures r.Success? ==> r.value == v
    ensures r.Failure? ==> r.error == ValidationError(jsonPath, reason)
  {
    if ok then Success(v) else Failure(ValidationError(jsonPath, reason))
  }

  /** `assertRecord(value, jsonPath)` */
  function AssertRecord(v: JsValue, jsonPath: string): (r: Result<JsValue, PackValidationError>)
    ensures r.Success? <==> TypeOf(v) == "object" && !v.JNull? && !v.JArray?
    ensures r.Success? ==> r.value == v
    ensures r.Failure? ==> r.error.jsonPath == jsonPath && r.error.message == jsonPath + ": expected object"
  {
    Check(v, jsonPath, IsRecord(v), "expected object")
  }

  /** `assertString(value, jsonPath)` */
  function AssertString(v: JsValue, jsonPath: string): (r: Result<JsValue, PackValidationError>)
    ensures r.Success? <==> TypeOf(v) == "string"
    ensures r.Success? ==> r.value == v
    ensures r.Failure? ==> r.error.jsonPath == jsonPath && r.error.message == jsonPath + ": expected string"
  {
    Check(v, jsonPath, TypeOf(v) == "string", "expected string")
  }

  /** `assertNumber(value, jsonPath)`: any number but NaN, infinities included. */
  function AssertNumber(v: JsValue, jsonPath: string): (r: Result<JsValue, PackValidationError>)
    ensures r.Success? <==> TypeOf(v) == "number" && v.n != NaN
    ensures r.Success? ==> r.value == v
    ensures r.Failure? ==> r.error.jsonPath == jsonPath && r.error.message == jsonPath + ": expected number"
  {
    Check(v, jsonPath, v.JNum? && !v.n.NaN?, "expected number")
  }

  /** `assertNumber` lets both infinities through and stops NaN. */
  lemma AssertNumberInfinities(negative: bool, jsonPath: string)
    ensures AssertNumber(JNum(Infinity(negative)), jsonPath) == Success(JNum(Infinity(negative)))
    ensures AssertNumber(JNum(NaN), jsonPath).Failure?
  {
  }

  /** `assertArray(value, jsonPath)` */
  function AssertArray(v: JsValue, jsonPath: string): (r: Result<JsValue, PackValidationError>)
    ensures r.Success? <==> v.JArray?
    ensures r.Success? ==> r.value == v
    ensures r.Failure? ==> r.error.jsonPath == jsonPath && r.error.message == jsonPath + ": expected array"
  {
    Check(v, jsonPath, v.JArray?, "expected array")
  }

  /** The kinds of value a validator checks for. */
  datatype Kind = RecordKind | StringKind | NumberKind | ArrayKind

  /** `assertRecord`, `assertString`, `assertNumber` or `assertArray`. */
  function AssertKind(kind: Kind, v: JsValue, jsonPath: string): Result<JsValue, PackValidationError> {
    match kind
    case RecordKind => AssertRecord(v, jsonPath)
    case StringKind => AssertString(v, jsonPath)
    case NumberKind => AssertNumber(v, jsonPath)
    case ArrayKind => AssertArray(v, jsonPath)
  }

  /**
   * `assertOptionalRecord`, `assertOptionalString`, `assertOptionalNumber`, `assertOptionalArray`:
   * undefined is accepted as absent, and any other value is judged by the plain validator.
   */
  function AssertOptional(kind: Kind, v: JsValue, jsonPath: string): (r: Result<Option<JsValue>, PackValidationError>)
    ensures v.JUndefined? ==> r == Success(None)
    ensures !v.JUndefined? ==> (r.Success? <==> AssertKind(kind, v, jsonPath).Success?)
    ensures !v.JUndefined? && r.Success? ==> r.value == Some(v)
    ensures !v.JUndefined? && r.Failure? ==> r.error == AssertKind(kind, v, jsonPath).error
  {
    if v.JUndefined? then Success(None)
    else
      match AssertKind(kind, v, jsonPath)
      case Success(x) => Success(Some(x))
      case Failure(e) => Failure(e)
  }

  /** No plain validator accepts undefined, so the optional ones differ from them exactly there. */
  lemma OptionalOnlyAddsUndefined(kind: Kind, v: JsValue, jsonPath: string)
    ensures AssertKind(kind, v, jsonPath).Success? ==> AssertOptional(kind, v, jsonPath) == Success(Some(v))
    ensures AssertOptional(kind, v, jsonPath).Success? && !AssertKind(kind, v, jsonPath).Success? ==> v.JUndefined?
    ensures AssertKind(kind, JUndefined, jsonPath).Failure?
  {
  }
}
