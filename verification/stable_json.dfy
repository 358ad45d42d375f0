/**
 * Canonical JSON text of a JavaScript value: every object's keys are re-inserted in
 * sorted order, undefined fields are dropped, and values JSON cannot carry become strings.
 * Also `JSON.stringify` itself, which the planner uses to compare NBT payloads.
 */
module StableJson {
  import opened Wrappers
  import opened Strings
  import opened JsValues

  // ---------------------------------------------------------------------------
  // Orders on field keys

  /** Fields whose keys never decrease in code-unit order. */
  predicate SortedLex(fs: seq<Field>) {
    forall i, j :: 0 <= i < j < |fs| ==> !StrLess(fs[j].key, fs[i].key)
  }

  /** Fields whose keys strictly increase under `lt`. */
  ghost predicate StrictlySortedBy(fs: seq<Field>, lt: (string, string) -> bool) {
    forall i, j :: 0 <= i < j < |fs| ==> lt(fs[i].key, fs[j].key)
  }

  /**
   * The order in which an ordinary object built by inserting keys in code-unit order
   * enumerates them: array-index keys first by numeric value, then the other keys in
   * code-unit order.
   */
  predicate CanonicalLess(a: string, b: string) {
    if IsArrayIndex(a) && IsArrayIndex(b) then DigitsValue(a) < DigitsValue(b)
    else if IsArrayIndex(a) then true
    else if IsArrayIndex(b) then false
    else StrLess(a, b)
  }

  /** Field keys strictly increasing in the canonical order. */
  predicate CanonicalSorted(fs: seq<Field>) {
    forall i, j :: 0 <= i < j < |fs| ==> CanonicalLess(fs[i].key, fs[j].key)
  }

  lemma StrLeTransitive(a: string, b: string, c: string)
    requires !StrLess(b, a) && !StrLess(c, b)
    ensures !StrLess(c, a)
  {
    if StrLess(c, a) {
      if a == b {
      } else {
        StrLessTotal(a, b);
        StrLessTransitive(c, a, b);
      }
    }
  }

  lemma DigitCharOf(c: char)
    requires '0' <= c <= '9'
    ensures DigitChar(c as int - '0' as int) == c
  {
  }

  lemma DivModDigit(q: nat, d: nat)
    requires d < 10
    ensures (q * 10 + d) / 10 == q && (q * 10 + d) % 10 == d
  {
  }

  /** Decimal digits without a leading zero (the single digit `0` aside). */
  predicate CanonicalDigits(s: string) {
    && |s| > 0
    && (forall i :: 0 <= i < |s| ==> '0' <= s[i] <= '9')
    && (s[0] == '0' ==> |s| == 1)
  }

  lemma {:induction false} CanonicalDigitsText(s: string)
    requires CanonicalDigits(s)
    ensures NatText(DigitsValue(s)) == s
    decreases |s|
  {
    var last := s[|s| - 1];
    var d := last as int - '0' as int;
    DigitCharOf(last);
    if |s| == 1 {
      assert s[..0] == "";
      assert DigitsValue(s) == d;
    } else {
      var p := s[..|s| - 1];
      assert DigitsValue(s) == DigitsValue(p) * 10 + d;
      DigitsNonZero(p);
      assert CanonicalDigits(p);
      CanonicalDigitsText(p);
      var n := DigitsValue(s);
      DivModDigit(DigitsValue(p), d);
      assert NatText(n) == NatText(n / 10) + [DigitChar(n % 10)];
      assert s == p + [last];
    }
  }

  /** A canonical decimal string is the decimal text of its own value. */
  lemma DigitsText(s: string)
    requires IsArrayIndex(s)
    ensures NatText(DigitsValue(s)) == s
  {
    CanonicalDigitsText(s);
  }

  lemma {:induction false} DigitsNonZero(s: string)
    requires |s| > 0 && forall i :: 0 <= i < |s| ==> '0' <= s[i] <= '9'
    requires s[0] != '0'
    ensures DigitsValue(s) >= 1
    decreases |s|
  {
    if |s| > 1 {
      DigitsNonZero(s[..|s| - 1]);
    } else {
      assert s[..0] == "";
    }
  }

  lemma ArrayIndexInjective(a: string, b: string)
    requires IsArrayIndex(a) && IsArrayIndex(b) && DigitsValue(a) == DigitsValue(b)
    ensures a == b
  {
    DigitsText(a);
    DigitsText(b);
  }

  lemma CanonicalLessIsStrictOrder()
    ensures forall a :: !CanonicalLess(a, a)
    ensures forall a, b, c :: CanonicalLess(a, b) && CanonicalLess(b, c) ==> CanonicalLess(a, c)
    ensures forall a, b :: a != b ==> CanonicalLess(a, b) || CanonicalLess(b, a)
  {
    forall a ensures !CanonicalLess(a, a) {
      StrLessIrreflexive(a);
    }
    forall a, b, c | CanonicalLess(a, b) && CanonicalLess(b, c) ensures CanonicalLess(a, c) {
      if !IsArrayIndex(a) && !IsArrayIndex(b) && !IsArrayIndex(c) {
        StrLessTransitive(a, b, c);
      }
    }
    forall a, b | a != b ensures CanonicalLess(a, b) || CanonicalLess(b, a) {
      if IsArrayIndex(a) && IsArrayIndex(b) {
        if DigitsValue(a) == DigitsValue(b) {
          ArrayIndexInjective(a, b);
        }
      } else if !IsArrayIndex(a) && !IsArrayIndex(b) {
        StrLessTotal(a, b);
      }
    }
  }

  lemma StrLessIsStrictOrder()
    ensures forall a :: !StrLess(a, a)
    ensures forall a, b, c :: StrLess(a, b) && StrLess(b, c) ==> StrLess(a, c)
  {
    forall a ensures !StrLess(a, a) {
      StrLessIrreflexive(a);
    }
    forall a, b, c | StrLess(a, b) && StrLess(b, c) ensures StrLess(a, c) {
      StrLessTransitive(a, b, c);
    }
  }

  /**
   * Under a strict order, a strictly sorted field list is determined by its set of fields:
   * this is why canonicalisation does not depend on insertion order.
   */
  lemma {:induction false} StrictlySortedUnique(a: seq<Field>, b: seq<Field>, lt: (string, string) -> bool)
    requires forall x :: !lt(x, x)
    requires forall x, y, z :: lt(x, y) && lt(y, z) ==> lt(x, z)
    requires StrictlySortedBy(a, lt) && StrictlySortedBy(b, lt)
    requires forall f :: f in a <==> f in b
    ensures a == b
    decreases |a|
  {
    assert |b| > 0 ==> b[0] in a;
    assert |a| > 0 ==> a[0] in b;
    if |a| > 0 && |b| > 0 {
      var a0, b0 := a[0], b[0];
      var j :| 0 <= j < |a| && a[j] == b0;
      var k :| 0 <= k < |b| && b[k] == a0;
      if j != 0 && k != 0 {
        // each head would come strictly before the other
        assert false;
      }
      assert a0 == b0;
      forall f ensures f in a[1..] <==> f in b[1..] {
        if f in a[1..] {
          var j :| 1 <= j < |a| && a[j] == f;
          assert lt(a[0].key, f.key);
          assert f in b;
        }
        if f in b[1..] {
          var j :| 1 <= j < |b| && b[j] == f;
          assert lt(b[0].key, f.key);
          assert f in a;
        }
      }
      StrictlySortedUnique(a[1..], b[1..], lt);
    }
  }

  // ---------------------------------------------------------------------------
  // Sorting fields by key (`Object.keys(record).sort()`)

  /** A field no later than any field of a sorted list can go in front of it. */
  lemma ConsLex(h: Field, rest: seq<Field>)
    requires SortedLex(rest)
    requires forall g :: g in rest ==> !StrLess(g.key, h.key)
    ensures SortedLex([h] + rest)
  {
    var r := [h] + rest;
    forall i, j | 0 <= i < j < |r| ensures !StrLess(r[j].key, r[i].key) {
      if i == 0 {
        assert r[j] in rest;
      } else {
        assert r[i] == rest[i - 1] && r[j] == rest[j - 1];
      }
    }
  }

  lemma FrontBelow(f: Field, sorted: seq<Field>)
    requires SortedLex(sorted) && |sorted| > 0 && !StrLess(sorted[0].key, f.key)
    ensures forall g :: g in sorted ==> !StrLess(g.key, f.key)
  {
    forall g | g in sorted ensures !StrLess(g.key, f.key) {
      var m :| 0 <= m < |sorted| && sorted[m] == g;
      if m > 0 {
        StrLeTransitive(f.key, sorted[0].key, g.key);
      }
    }
  }

  lemma HeadBelow(f: Field, sorted: seq<Field>, rest: seq<Field>)
    requires SortedLex(sorted) && |sorted| > 0 && StrLess(sorted[0].key, f.key)
    requires multiset(rest) == multiset(sorted[1..]) + multiset{f}
    ensures forall g :: g in rest ==> !StrLess(g.key, sorted[0].key)
  {
    forall g | g in rest ensures !StrLess(g.key, sorted[0].key) {
      assert g in multiset(rest);
      if g == f {
        StrLessAsymmetric(sorted[0].key, f.key);
      } else {
        assert g in multiset(sorted[1..]);
        var m :| 0 <= m < |sorted[1..]| && sorted[1..][m] == g;
        assert sorted[m + 1] == g;
      }
    }
  }

  function InsertByKey(f: Field, sorted: seq<Field>): (r: seq<Field>)
    requires SortedLex(sorted)
    ensures multiset(r) == multiset(sorted) + multiset{f}
    ensures SortedLex(r)
  {
    if |sorted| == 0 then [f]
    else if !StrLess(sorted[0].key, f.key) then
      FrontBelow(f, sorted);
      ConsLex(f, sorted);
      [f] + sorted
    else
      var rest := InsertByKey(f, sorted[1..]);
      HeadBelow(f, sorted, rest);
      ConsLex(sorted[0], rest);
      assert sorted == [sorted[0]] + sorted[1..];
      [sorted[0]] + rest
  }

  /** `Object.keys(record).sort()` read back as fields. */
  function SortByKey(fs: seq<Field>): (r: seq<Field>)
    ensures multiset(r) == multiset(fs)
    ensures SortedLex(r)
  {
    if |fs| == 0 then []
    else
      assert fs == [fs[0]] + fs[1..];
      InsertByKey(fs[0], SortByKey(fs[1..]))
  }

  // ---------------------------------------------------------------------------
  // stabilize

  /** `stabilize(value)` */
  function Stabilize(v: JsValue): (r: JsValue)
    ensures (v.JNull? || v.JStr? || v.JNum? || v.JBool? || v.JUndefined?) ==> r == v
    ensures (v.JBigInt? || v.JSymbol? || v.JFunction?) ==> r.JStr?
    ensures r.JUndefined? <==> v.JUndefined?
    ensures v.JArray? ==> r.JArray? && |r.elems| == |v.elems|
    ensures v.JObject? ==> r.JObject?
  {
    match v
    case JBigInt(i) => JStr(IntText(i))
    case JSymbol(d) => JStr(d.GetOr("symbol"))
    case JFunction => JStr("function")
    case JArray(es) => JArray(StabilizeAll(es))
    case JObject(fs) => JObject(Assemble(SortByKey(StabilizeFields(fs)), []))
    case _ => v
  }

  /** `value.map((v) => stabilize(v))` */
  function StabilizeAll(es: seq<JsValue>): (r: seq<JsValue>)
    ensures |r| == |es|
    ensures forall i :: 0 <= i < |es| ==> r[i] == Stabilize(es[i])
  {
    if |es| == 0 then [] else [Stabilize(es[0])] + StabilizeAll(es[1..])
  }

  /** Every field with its value stabilised; keys unchanged. */
  function StabilizeFields(fs: seq<Field>): (r: seq<Field>)
    ensures |r| == |fs|
    ensures forall i :: 0 <= i < |fs| ==> r[i] == Field(fs[i].key, Stabilize(fs[i].value))
  {
    if |fs| == 0 then [] else [Field(fs[0].key, Stabilize(fs[0].value))] + StabilizeFields(fs[1..])
  }

  /** The one key whose assignment on a plain object reaches the prototype setter. */
  const ProtoKey: string := "__proto__"

  /**
   * Whether `out[k] = v` on a fresh plain object leaves `k` as an own property: an undefined
   * value is skipped by the caller, and assigning to `__proto__` goes to the inherited setter
   * (which changes the prototype, or does nothing) instead of creating a property.
   */
  predicate Kept(f: Field) {
    f.value != JUndefined && f.key != ProtoKey
  }

  /** Insert the sorted fields one by one into `out`, skipping those that add no own property. */
  function Assemble(todo: seq<Field>, out: seq<Field>): seq<Field> {
    if |todo| == 0 then out
    else if !Kept(todo[0]) then Assemble(todo[1..], out)
    else Assemble(todo[1..], ObjectSet(out, todo[0].key, todo[0].value))
  }

  /** `stableJsonStringify(value)` */
  function StableJsonStringify(v: JsValue): JsonOut {
    Stringify(Stabilize(v))
  }

  // ---------------------------------------------------------------------------
  // JSON.stringify

  /** What `JSON.stringify` gives: text, `undefined` for an unserialisable value, or a thrown TypeError. */
  datatype JsonOut = Text(text: string) | Omitted | TypeError

  function HexDigit(d: nat): char
    requires d < 16
  {
    "0123456789abcdef"[d]
  }

  /** The JSON escape of one character inside a string literal. */
  function EscapeChar(c: char): string {
    if c == '"' then "\\\""
    else if c == '\\' then "\\\\"
    else if c == 8 as char then "\\b"
    else if c == 12 as char then "\\f"
    else if c == '\n' then "\\n"
    else if c == '\r' then "\\r"
    else if c == '\t' then "\\t"
    else if (c as int) < 0x20 then "\\u00" + [HexDigit(c as int / 16), HexDigit(c as int % 16)]
    else [c]
  }

  function EscapeString(s: string): string {
    if |s| == 0 then "" else EscapeChar(s[0]) + EscapeString(s[1..])
  }

  /** A JSON string literal. */
  function Quote(s: string): string {
    "\"" + EscapeString(s) + "\""
  }

  /** `JSON.stringify(v)` */
  function Stringify(v: JsValue): JsonOut {
    match v
    case JUndefined => Omitted
    case JFunction => Omitted
    case JSymbol(_) => Omitted
    case JNull => Text("null")
    case JBool(b) => Text(if b then "true" else "false")
    case JNum(n) => Text(if n.Dec? then NumberText(n) else "null")
    case JStr(s) => Text(Quote(s))
    case JBigInt(_) => TypeError
    case JArray(es) =>
      (match StringifyElems(es)
       case Some(body) => Text("[" + body + "]")
       case None => TypeError)
    case JObject(fs) =>
      match StringifyFields(fs)
      case Some(body) => Text("{" + body + "}")
      case None => TypeError
  }

  /** Array elements joined by commas; unserialisable elements print as `null`. None on a TypeError. */
  function StringifyElems(es: seq<JsValue>): Option<string> {
    if |es| == 0 then Some("")
    else
      var first := match Stringify(es[0])
        case Text(t) => Some(t)
        case Omitted => Some("null")
        case TypeError => None;
      var rest := StringifyElems(es[1..]);
      if first.None? || rest.None? then None
      else if |es| == 1 then first
      else Some(first.value + "," + rest.value)
  }

  /** Object members joined by commas; unserialisable values are skipped. None on a TypeError. */
  function StringifyFields(fs: seq<Field>): Option<string> {
    if |fs| == 0 then Some("")
    else
      var rest := StringifyFields(fs[1..]);
      match Stringify(fs[0].value)
      case TypeError => None
      case Omitted => rest
      case Text(t) =>
        if rest.None? then None
        else
          var member := Quote(fs[0].key) + ":" + t;
          Some(if rest.value == "" then member else member + "," + rest.value)
  }
}
