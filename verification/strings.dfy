/** Character-string helpers the JavaScript source reaches through its standard library. */
module Strings {
  import opened Wrappers

  /** `s.startsWith(p)` */
  predicate StartsWith(s: string, p: string) {
    |p| <= |s| && s[..|p|] == p
  }

  /** `s.endsWith(p)` */
  predicate EndsWith(s: string, p: string) {
    |p| <= |s| && s[|s| - |p|..] == p
  }

  /** `sub` occurs in `s` starting at index `j`. */
  predicate OccursAt(s: string, sub: string, j: int) {
    0 <= j && j + |sub| <= |s| && s[j..j + |sub|] == sub
  }

  /** `s.includes(sub)` */
  predicate Contains(s: string, sub: string) {
    exists j :: 0 <= j <= |s| - |sub| && OccursAt(s, sub, j)
  }

  /** The first index at or after `from` where `sub` occurs (`s.indexOf(sub, from)`). */
  function IndexOfFrom(s: string, sub: string, from: nat): (r: Option<nat>)
    decreases |s| - from
    ensures r.Some? ==> from <= r.value && OccursAt(s, sub, r.value)
    ensures r.Some? ==> forall j :: from <= j < r.value ==> !OccursAt(s, sub, j)
    ensures r.None? ==> forall j :: from <= j ==> !OccursAt(s, sub, j)
  {
    if from + |sub| > |s| then None
    else if s[from..from + |sub|] == sub then Some(from)
    else IndexOfFrom(s, sub, from + 1)
  }

  /** `s.includes(sub)` agrees with a successful `indexOf`. */
  lemma ContainsIffIndexOf(s: string, sub: string)
    ensures Contains(s, sub) <==> IndexOfFrom(s, sub, 0).Some?
  {
    if IndexOfFrom(s, sub, 0).Some? {
      assert OccursAt(s, sub, IndexOfFrom(s, sub, 0).value);
    }
  }

  /** `s.replace(pattern, replacement)` with a string pattern: only the first occurrence changes. */
  function ReplaceFirst(s: string, pattern: string, replacement: string): (r: string)
    ensures IndexOfFrom(s, pattern, 0).None? ==> r == s
  {
    match IndexOfFrom(s, pattern, 0)
    case None => s
    case Some(j) => s[..j] + replacement + s[j + |pattern|..]
  }

  /** The part of `s` before the first `c` (`s.split(c)[0]`). */
  function BeforeFirst(s: string, c: char): (r: string)
    ensures c !in r
    ensures StartsWith(s, r)
    ensures |r| < |s| ==> s[|r|] == c
  {
    if |s| == 0 then ""
    else if s[0] == c then ""
    else [s[0]] + BeforeFirst(s[1..], c)
  }

  /** The part of `s` after the last `c` (`s.split(c).pop()`). */
  function AfterLast(s: string, c: char): (r: string)
    ensures c !in r
    ensures EndsWith(s, r)
    ensures |r| < |s| ==> s[|s| - |r| - 1] == c
  {
    if |s| == 0 then ""
    else if s[|s| - 1] == c then ""
    else AfterLast(s[..|s| - 1], c) + [s[|s| - 1]]
  }

  /** ASCII lower-casing of one character; other characters are left alone. */
  function LowerChar(c: char): char {
    if 'A' <= c <= 'Z' then (c as int - 'A' as int + 'a' as int) as char else c
  }

  /** `s.toLowerCase()` restricted to ASCII letters. */
  function Lower(s: string): (r: string)
    ensures |r| == |s|
    ensures forall i :: 0 <= i < |s| ==> r[i] == LowerChar(s[i])
  {
    if |s| == 0 then "" else [LowerChar(s[0])] + Lower(s[1..])
  }

  /**
   * Where a character's UTF-16 encoding falls in code-unit order: characters below U+D800 keep
   * their value, supplementary characters (encoded from a high surrogate, 0xD800-0xDBFF) come
   * next in scalar order, and the characters U+E000-U+FFFF come last.
   */
  function UnitRank(c: char): int {
    var v := c as int;
    if v < 0xD800 then v
    else if v < 0x1_0000 then v + 0x10_0000
    else v - 0x1_0000 + 0xD800
  }

  lemma UnitRankInjective(c: char, d: char)
    ensures UnitRank(c) == UnitRank(d) ==> c == d
  {
  }

  /**
   * The order of JavaScript's default sort and of `<` on strings: UTF-16 code units compared
   * one by one, a proper prefix first. Comparing characters by `UnitRank` is the same thing
   * (`StrLessIsUtf16Order`).
   */
  predicate StrLess(a: string, b: string)
    decreases |a|
  {
    if |a| == 0 then |b| > 0
    else if |b| == 0 then false
    else if a[0] != b[0] then UnitRank(a[0]) < UnitRank(b[0])
    else StrLess(a[1..], b[1..])
  }

  /** The UTF-16 code units of one character. */
  function Utf16Char(c: char): (r: seq<int>)
    ensures 1 <= |r| <= 2
  {
    var v := c as int;
    if v < 0x1_0000 then [v]
    else [0xD800 + (v - 0x1_0000) / 0x400, 0xDC00 + (v - 0x1_0000) % 0x400]
  }

  /** The UTF-16 encoding of a string, as JavaScript stores it. */
  function Utf16(s: string): seq<int>
    decreases |s|
  {
    if |s| == 0 then [] else Utf16Char(s[0]) + Utf16(s[1..])
  }

  /** Lexicographic order on code-unit sequences, a proper prefix first. */
  predicate UnitsLess(a: seq<int>, b: seq<int>)
    decreases |a|
  {
    if |a| == 0 then |b| > 0
    else if |b| == 0 then false
    else if a[0] != b[0] then a[0] < b[0]
    else UnitsLess(a[1..], b[1..])
  }

  lemma {:induction false} UnitsLessCommonPrefix(p: seq<int>, x: seq<int>, y: seq<int>)
    ensures UnitsLess(p + x, p + y) <==> UnitsLess(x, y)
    decreases |p|
  {
    if |p| > 0 {
      assert (p + x)[1..] == p[1..] + x;
      assert (p + y)[1..] == p[1..] + y;
      UnitsLessCommonPrefix(p[1..], x, y);
    } else {
      assert p + x == x && p + y == y;
    }
  }

  /** Two different characters are ordered by their encodings' first differing unit. */
  lemma DistinctCharsUnits(c: char, d: char, x: seq<int>, y: seq<int>)
    requires c != d
    ensures UnitsLess(Utf16Char(c) + x, Utf16Char(d) + y) <==> UnitRank(c) < UnitRank(d)
  {
    var u, w := Utf16Char(c) + x, Utf16Char(d) + y;
    var vc, vd := c as int, d as int;
    if vc < 0x1_0000 || vd < 0x1_0000 {
      // one of them is a single unit outside the surrogate range, so the first units differ
      assert u[0] != w[0];
    } else {
      var hc, hd := (vc - 0x1_0000) / 0x400, (vd - 0x1_0000) / 0x400;
      var lc, ld := (vc - 0x1_0000) % 0x400, (vd - 0x1_0000) % 0x400;
      assert vc - 0x1_0000 == hc * 0x400 + lc;
      assert vd - 0x1_0000 == hd * 0x400 + ld;
      if hc == hd {
        assert u[0] == w[0];
        assert u[1..][0] == 0xDC00 + lc && w[1..][0] == 0xDC00 + ld;
        assert lc != ld;
      } else {
        assert u[0] != w[0];
      }
    }
  }

  /** `StrLess` is the comparison of the strings' UTF-16 encodings. */
  lemma {:induction false} StrLessIsUtf16Order(a: string, b: string)
    ensures StrLess(a, b) <==> UnitsLess(Utf16(a), Utf16(b))
    decreases |a|
  {
    if |a| > 0 && |b| > 0 {
      if a[0] == b[0] {
        UnitsLessCommonPrefix(Utf16Char(a[0]), Utf16(a[1..]), Utf16(b[1..]));
        StrLessIsUtf16Order(a[1..], b[1..]);
      } else {
        DistinctCharsUnits(a[0], b[0], Utf16(a[1..]), Utf16(b[1..]));
      }
    }
  }

  lemma {:induction false} StrLessIrreflexive(a: string)
    ensures !StrLess(a, a)
    decreases |a|
  {
    if |a| > 0 {
      StrLessIrreflexive(a[1..]);
    }
  }

  lemma {:induction false} StrLessAsymmetric(a: string, b: string)
    ensures StrLess(a, b) ==> !StrLess(b, a)
    decreases |a|
  {
    if |a| > 0 && |b| > 0 && a[0] == b[0] {
      StrLessAsymmetric(a[1..], b[1..]);
    }
  }

  lemma {:induction false} StrLessTransitive(a: string, b: string, c: string)
    requires StrLess(a, b) && StrLess(b, c)
    ensures StrLess(a, c)
    decreases |a|
  {
    if |a| > 0 && a[0] == b[0] && b[0] == c[0] {
      StrLessTransitive(a[1..], b[1..], c[1..]);
    }
  }

  lemma {:induction false} StrLessTotal(a: string, b: string)
    requires a != b
    ensures StrLess(a, b) || StrLess(b, a)
    decreases |a|
  {
    if |a| > 0 && |b| > 0 {
      if a[0] == b[0] {
        assert a == [a[0]] + a[1..] && b == [b[0]] + b[1..];
        StrLessTotal(a[1..], b[1..]);
      } else {
        UnitRankInjective(a[0], b[0]);
      }
    }
  }

  /** An emoji (encoded from the surrogate 0xD83D) sorts before U+FF61 although its scalar value is larger. */
  lemma SurrogatesSortBeforeHighBmp()
    ensures StrLess("\U{1F600}", "\U{FF61}") && !StrLess("\U{FF61}", "\U{1F600}")
  {
  }

  /** One decimal digit. */
  function DigitChar(d: nat): char
    requires d < 10
  {
    "0123456789"[d]
  }

  /** The decimal text of a natural number, without leading zeros. */
  function NatText(n: nat): (r: string)
    ensures |r| > 0
    ensures forall i :: 0 <= i < |r| ==> '0' <= r[i] <= '9'
    decreases n
  {
    if n < 10 then [DigitChar(n)] else NatText(n / 10) + [DigitChar(n % 10)]
  }

  /** The decimal text of an integer (`String(n)` for a bigint). */
  function IntText(n: int): (r: string)
    ensures |r| > 0
    ensures n < 0 <==> r[0] == '-'
  {
    if n < 0 then "-" + NatText(-n) else NatText(n)
  }

  /** The value of a string of decimal digits. */
  function DigitsValue(s: string): nat
    requires forall i :: 0 <= i < |s| ==> '0' <= s[i] <= '9'
  {
    if |s| == 0 then 0 else DigitsValue(s[..|s| - 1]) * 10 + (s[|s| - 1] as int - '0' as int)
  }

  /** `n` zero characters. */
  function Zeros(n: nat): (r: string)
    ensures |r| == n
    ensures forall i :: 0 <= i < n ==> r[i] == '0'
  {
    if n == 0 then "" else "0" + Zeros(n - 1)
  }
}
