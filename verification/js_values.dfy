/**
 * JavaScript values as the model sees them: numbers (finite decimals, NaN and the
 * infinities), the primitive kinds, arrays and plain objects whose field order is the
 * object's property enumeration order.
 */
module JsValues {
  import opened Wrappers
  import opened Strings

  /**
   * A JavaScript number. Every finite double is a finite decimal `mantissa * 10^exponent`;
   * the same number may have several representations, so equality is `NumberEq`.
   */
  datatype JsNumber = Dec(mantissa: int, exponent: int) | NaN | Infinity(negative: bool)

  function Pow10(e: nat): (r: nat)
    ensures r >= 1
  {
    if e == 0 then 1 else 10 * Pow10(e - 1)
  }

  /** The real value of a finite number. */
  function ToReal(n: JsNumber): real
    requires n.Dec?
  {
    if n.exponent >= 0 then (n.mantissa * Pow10(n.exponent)) as real
    else n.mantissa as real / Pow10(-n.exponent) as real
  }

  /** A finite number holding exactly the real value of integer `i`. */
  function FromInt(i: int): (n: JsNumber)
    ensures n.Dec? && ToReal(n) == i as real
  {
    Dec(i, 0)
  }

  /** `Number.isFinite(n)` */
  predicate IsFinite(n: JsNumber) {
    n.Dec?
  }

  /** `Number.isFinite(n) ? n : fallback` */
  function FiniteOr(n: JsNumber, fallback: real): (r: real)
    ensures IsFinite(n) ==> r == ToReal(n)
    ensures !IsFinite(n) ==> r == fallback
  {
    if n.Dec? then ToReal(n) else fallback
  }

  /** The same for an optional numeric field: an absent field converts to NaN. */
  function OptFiniteOr(n: Option<JsNumber>, fallback: real): (r: real)
    ensures n.Some? && IsFinite(n.value) ==> r == ToReal(n.value)
    ensures (n.None? || !IsFinite(n.value)) ==> r == fallback
  {
    match n
    case Some(x) => FiniteOr(x, fallback)
    case None => fallback
  }

  /** Strict equality `a === b` on numbers: NaN equals nothing. */
  predicate NumberEq(a: JsNumber, b: JsNumber) {
    match (a, b)
    case (Dec(_, _), Dec(_, _)) => ToReal(a) == ToReal(b)
    case (Infinity(x), Infinity(y)) => x == y
    case _ => false
  }

  /** Strip trailing decimal zeros from the mantissa, keeping the value. */
  function Normalize(m: int, e: int): (r: (int, int))
    decreases if m < 0 then -m else m
  {
    if m != 0 && m % 10 == 0 then Normalize(m / 10, e + 1) else (m, e)
  }

  /** The digits of a non-negative normalised decimal `m * 10^e`. */
  function DecimalText(m: nat, e: int): string {
    if m == 0 then "0"
    else if e >= 0 then NatText(m) + Zeros(e)
    else
      var d := NatText(m);
      var k := -e;
      if |d| > k then d[..|d| - k] + "." + d[|d| - k..]
      else "0." + Zeros(k - |d|) + d
  }

  /** `String(n)` for a number, in positional (non-exponent) notation. */
  function NumberText(n: JsNumber): (r: string)
    ensures |r| > 0
  {
    match n
    case NaN => "NaN"
    case Infinity(neg) => if neg then "-Infinity" else "Infinity"
    case Dec(m, e) =>
      var (m', e') := Normalize(m, e);
      if m' < 0 then "-" + DecimalText(-m', e') else DecimalText(m', e')
  }

  /** One property of a plain object. */
  datatype Field = Field(key: string, value: JsValue)

  /** A JavaScript value. */
  datatype JsValue =
    | JUndefined
    | JNull
    | JBool(b: bool)
    | JNum(n: JsNumber)
    | JStr(s: string)
    | JBigInt(i: int)
    | JSymbol(description: Option<string>)
    | JFunction
    | JArray(elems: seq<JsValue>)
    | JObject(fields: seq<Field>)

  /** The keys of a field list, in order. */
  function Keys(fs: seq<Field>): (r: seq<string>)
    ensures |r| == |fs|
    ensures forall i :: 0 <= i < |fs| ==> r[i] == fs[i].key
  {
    if |fs| == 0 then [] else [fs[0].key] + Keys(fs[1..])
  }

  /** No key occurs twice (true of every JavaScript object). */
  predicate UniqueKeys(fs: seq<Field>) {
    forall i, j :: 0 <= i < j < |fs| ==> fs[i].key != fs[j].key
  }

  /** The position of key `k`, if present. */
  function KeyIndex(fs: seq<Field>, k: string): (r: Option<nat>)
    ensures r.Some? ==> r.value < |fs| && fs[r.value].key == k
    ensures r.Some? ==> forall j :: 0 <= j < r.value ==> fs[j].key != k
    ensures r.None? ==> forall j :: 0 <= j < |fs| ==> fs[j].key != k
  {
    if |fs| == 0 then None
    else if fs[0].key == k then Some(0)
    else match KeyIndex(fs[1..], k)
      case None => None
      case Some(i) => Some(i + 1)
  }

  /** Property read `obj[k]` on a field list: undefined when absent. */
  function Lookup(fs: seq<Field>, k: string): JsValue {
    match KeyIndex(fs, k)
    case Some(i) => fs[i].value
    case None => JUndefined
  }

  /** An array index key: the canonical decimal text of an integer below 2^32 - 1. */
  predicate IsArrayIndex(k: string) {
    && |k| > 0
    && (forall i :: 0 <= i < |k| ==> '0' <= k[i] <= '9')
    && (k[0] == '0' ==> |k| == 1)
    && DigitsValue(k) < 4294967295
  }

  /** Insert an array-index field before the first non-index or larger-index field. */
  function InsertIndexField(fs: seq<Field>, f: Field): (r: seq<Field>)
    requires IsArrayIndex(f.key)
    ensures |r| == |fs| + 1
    ensures multiset(r) == multiset(fs) + multiset{f}
  {
    if |fs| == 0 || !IsArrayIndex(fs[0].key) || DigitsValue(fs[0].key) > DigitsValue(f.key) then [f] + fs
    else
      assert fs == [fs[0]] + fs[1..];
      [fs[0]] + InsertIndexField(fs[1..], f)
  }

  /**
   * Assignment `obj[k] = v` on an ordinary object: an existing key keeps its place; a new
   * array-index key joins the index keys in numeric order; any other new key goes last.
   */
  function ObjectSet(fs: seq<Field>, k: string, v: JsValue): (r: seq<Field>)
    ensures KeyIndex(fs, k).Some? ==> |r| == |fs|
    ensures KeyIndex(fs, k).None? ==> |r| == |fs| + 1
  {
    match KeyIndex(fs, k)
    case Some(i) => fs[..i] + [Field(k, v)] + fs[i + 1..]
    case None =>
      if IsArrayIndex(k) then InsertIndexField(fs, Field(k, v)) else fs + [Field(k, v)]
  }

  /** JavaScript truthiness. */
  predicate Truthy(v: JsValue) {
    match v
    case JUndefined => false
    case JNull => false
    case JBool(b) => b
    case JNum(n) => !n.NaN? && (n.Dec? ==> ToReal(n) != 0.0)
    case JStr(s) => s != ""
    case JBigInt(i) => i != 0
    case _ => true
  }

  /** JavaScript's `a || b`. */
  function Or(a: JsValue, b: JsValue): (r: JsValue)
    ensures Truthy(a) ==> r == a
    ensures !Truthy(a) ==> r == b
  {
    if Truthy(a) then a else b
  }

  /** Optional chaining `v?.k`: a field of an object, else undefined. */
  function Get(v: JsValue, k: string): JsValue {
    if v.JObject? then Lookup(v.fields, k) else JUndefined
  }

  /** A value that `JSON.parse` can produce. */
  predicate IsJsonData(v: JsValue) {
    match v
    case JNull => true
    case JBool(_) => true
    case JNum(n) => n.Dec?
    case JStr(_) => true
    case JArray(es) => forall i :: 0 <= i < |es| ==> IsJsonData(es[i])
    case JObject(fs) => forall i :: 0 <= i < |fs| ==> IsJsonData(fs[i].value)
    case _ => false
  }

  /** `String(v)` for undefined and JSON data (arrays join their elements with commas). */
  function Text(v: JsValue): string
    requires v.JUndefined? || IsJsonData(v)
  {
    match v
    case JUndefined => "undefined"
    case JNull => "null"
    case JBool(b) => if b then "true" else "false"
    case JNum(n) => NumberText(n)
    case JStr(s) => s
    case JArray(es) => JoinText(es)
    case JObject(_) => "[object Object]"
  }

  /** `es.join(',')`, where null and undefined elements become empty. */
  function JoinText(es: seq<JsValue>): string
    requires forall i :: 0 <= i < |es| ==> IsJsonData(es[i])
  {
    if |es| == 0 then ""
    else
      var first := if es[0].JNull? then "" else Text(es[0]);
      if |es| == 1 then first else first + "," + JoinText(es[1..])
  }
}
