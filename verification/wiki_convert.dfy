// The pure helpers of the wiki-dump converter (scripts/convert-wiki-json.mjs): reading the
// command line, recognising http(s) urls, routing a url through a proxy, and choosing the
// entries of an index file, the url of each entry and the file it is saved under.
module WikiConvert {
  import opened Wrappers
  import opened Strings
  import opened JsValues

  // ---------------------------------------------------------------------------
  // Command line

  /** The options `parseArgs` returns. */
  datatype Args = Args(index: string, out: string, proxy: string, base: string, catalog: string, overwrite: bool)

  const Defaults := Args("", "", "", "", "", false)

  /** The flags that take a value. */
  predicate IsValueFlag(s: string) {
    s == "--index" || s == "--out" || s == "--proxy" || s == "--base" || s == "--catalog"
  }

  /** The option a value flag sets. */
  function ValueOf(a: Args, flag: string): string
    requires IsValueFlag(flag)
  {
    if flag == "--index" then a.index
    else if flag == "--out" then a.out
    else if flag == "--proxy" then a.proxy
    else if flag == "--base" then a.base
    else a.catalog
  }

  /** The options with the one named by `flag` set to `v`. */
  function WithValue(a: Args, flag: string, v: string): (r: Args)
    requires IsValueFlag(flag)
    ensures ValueOf(r, flag) == v && r.overwrite == a.overwrite
    ensures forall f :: IsValueFlag(f) && f != flag ==> ValueOf(r, f) == ValueOf(a, f)
  {
    if flag == "--index" then Args(v, a.out, a.proxy, a.base, a.catalog, a.overwrite)
    else if flag == "--out" then Args(a.index, v, a.proxy, a.base, a.catalog, a.overwrite)
    else if flag == "--proxy" then Args(a.index, a.out, v, a.base, a.catalog, a.overwrite)
    else if flag == "--base" then Args(a.index, a.out, a.proxy, v, a.catalog, a.overwrite)
    else Args(a.index, a.out, a.proxy, a.base, v, a.overwrite)
  }

  /** The options with `overwrite` set. */
  function WithOverwrite(a: Args): Args {
    Args(a.index, a.out, a.proxy, a.base, a.catalog, true)
  }

  /**
   * The loop of `parseArgs` over the arguments after the program and script names: a value
   * flag takes the next argument when there is one and it is not empty (an empty string is
   * falsy), `--overwrite` sets its option, and anything else is passed over.
   */
  function ParseTokens(xs: seq<string>, a: Args): Args
    decreases |xs|
  {
    if |xs| == 0 then a
    else if IsValueFlag(xs[0]) && |xs| > 1 && xs[1] != "" then ParseTokens(xs[2..], WithValue(a, xs[0], xs[1]))
    else if xs[0] == "--overwrite" then ParseTokens(xs[1..], WithOverwrite(a))
    else ParseTokens(xs[1..], a)
  }

  /** Every option value comes from the starting options or is an argument of the list. */
  lemma {:induction false} ParseTokensFrom(xs: seq<string>, a: Args)
    ensures forall f :: IsValueFlag(f) ==>
      ValueOf(ParseTokens(xs, a), f) == ValueOf(a, f) || ValueOf(ParseTokens(xs, a), f) in xs
    ensures ParseTokens(xs, a).overwrite ==> a.overwrite || "--overwrite" in xs
    decreases |xs|
  {
    if |xs| > 0 {
      if IsValueFlag(xs[0]) && |xs| > 1 && xs[1] != "" {
        ParseTokensFrom(xs[2..], WithValue(a, xs[0], xs[1]));
        assert forall s :: s in xs[2..] ==> s in xs;
      } else if xs[0] == "--overwrite" {
        ParseTokensFrom(xs[1..], WithOverwrite(a));
        assert forall s :: s in xs[1..] ==> s in xs;
      } else {
        ParseTokensFrom(xs[1..], a);
        assert forall s :: s in xs[1..] ==> s in xs;
      }
    }
  }

  /** `parseArgs(argv)`: the program and script names are skipped. */
  function ParseArgs(argv: seq<string>): (r: Args)
    ensures forall f :: IsValueFlag(f) ==> ValueOf(r, f) == "" || (|argv| > 2 && ValueOf(r, f) in argv[2..])
    ensures r.overwrite ==> |argv| > 2 && "--overwrite" in argv[2..]
  {
    if |argv| <= 2 then Defaults
    else
      ParseTokensFrom(argv[2..], Defaults);
      ParseTokens(argv[2..], Defaults)
  }

  /** A list that does not end in a value flag, so whatever follows it is read on its own. */
  predicate Closed(xs: seq<string>) {
    |xs| == 0 || !IsValueFlag(xs[|xs| - 1])
  }

  /** Reading a closed list and then more arguments is reading the first and then the rest. */
  lemma {:induction false} ParseConcat(xs: seq<string>, ys: seq<string>, a: Args)
    requires Closed(xs)
    ensures ParseTokens(xs + ys, a) == ParseTokens(ys, ParseTokens(xs, a))
    decreases |xs|
  {
    if |xs| == 0 {
      assert xs + ys == ys;
    } else {
      var zs := xs + ys;
      assert zs[0] == xs[0];
      if IsValueFlag(xs[0]) && |xs| > 1 && xs[1] != "" {
        assert zs[1] == xs[1] && zs[2..] == xs[2..] + ys;
        ParseConcat(xs[2..], ys, WithValue(a, xs[0], xs[1]));
      } else {
        var b := if xs[0] == "--overwrite" then WithOverwrite(a) else a;
        assert IsValueFlag(xs[0]) ==> |xs| > 1 && zs[1] == xs[1];
        assert zs[1..] == xs[1..] + ys;
        assert ParseTokens(zs, a) == ParseTokens(zs[1..], b);
        assert ParseTokens(xs, a) == ParseTokens(xs[1..], b);
        ParseConcat(xs[1..], ys, b);
      }
    }
  }

  /** The command line before `argv`'s closing arguments are appended. */
  lemma ParseArgsAppend(argv: seq<string>, ys: seq<string>)
    requires |argv| >= 2 && Closed(argv[2..])
    ensures ParseArgs(argv + ys) == ParseTokens(ys, ParseArgs(argv))
  {
    assert (argv + ys)[2..] == argv[2..] + ys;
    ParseConcat(argv[2..], ys, Defaults);
  }

  /** A later `--flag value` overrides any earlier one and leaves the other options alone. */
  lemma LaterFlagOverrides(argv: seq<string>, flag: string, v: string)
    requires |argv| >= 2 && Closed(argv[2..])
    requires IsValueFlag(flag) && v != ""
    ensures var r := ParseArgs(argv + [flag, v]);
      && ValueOf(r, flag) == v
      && r.overwrite == ParseArgs(argv).overwrite
      && forall f :: IsValueFlag(f) && f != flag ==> ValueOf(r, f) == ValueOf(ParseArgs(argv), f)
  {
    ParseArgsAppend(argv, [flag, v]);
    assert [flag, v][2..] == [];
  }

  /** A value flag with nothing usable after it is ignored, and so is the empty argument after it. */
  lemma MissingValueIgnored(argv: seq<string>, flag: string, rest: seq<string>)
    requires |argv| >= 2 && Closed(argv[2..])
    requires IsValueFlag(flag)
    ensures ParseArgs(argv + [flag]) == ParseArgs(argv)
    ensures ParseArgs(argv + [flag, ""] + rest) == ParseArgs(argv + rest)
  {
    ParseArgsAppend(argv, [flag]);
    assert [flag][1..] == [];
    ParseArgsAppend(argv, [flag, ""] + rest);
    ParseArgsAppend(argv, rest);
    assert argv + [flag, ""] + rest == argv + ([flag, ""] + rest);
    assert ([flag, ""] + rest)[1..] == [""] + rest && ([""] + rest)[1..] == rest;
  }

  /** `--overwrite` sets `overwrite` and nothing else. */
  lemma OverwriteFlag(argv: seq<string>)
    requires |argv| >= 2 && Closed(argv[2..])
    ensures ParseArgs(argv + ["--overwrite"]) == WithOverwrite(ParseArgs(argv))
  {
    ParseArgsAppend(argv, ["--overwrite"]);
    assert ["--overwrite"][1..] == [];
  }

  /** An argument that is no flag changes nothing, wherever a closed prefix puts it. */
  lemma UnknownIgnored(argv: seq<string>, u: string, rest: seq<string>)
    requires |argv| >= 2 && Closed(argv[2..])
    requires !IsValueFlag(u) && u != "--overwrite"
    ensures ParseArgs(argv + [u] + rest) == ParseArgs(argv + rest)
  {
    ParseArgsAppend(argv, [u] + rest);
    ParseArgsAppend(argv, rest);
    assert ([u] + rest)[1..] == rest;
    assert argv + [u] + rest == argv + ([u] + rest);
  }

  // ---------------------------------------------------------------------------
  // Urls

  /** The character `c` matches the lower-case letter `l` of the pattern, ignoring ASCII case. */
  predicate Ci(c: char, l: char) {
    LowerChar(c) == l
  }

  /** A prefix test is a test of each position. */
  lemma PrefixPointwise(t: string, p: string)
    ensures StartsWith(t, p) <==> |p| <= |t| && forall i :: 0 <= i < |p| ==> t[i] == p[i]
  {
    if |p| <= |t| && forall i :: 0 <= i < |p| ==> t[i] == p[i] {
      assert t[..|p|] == p;
    }
  }

  /** A seven- or eight-character prefix, position by position. */
  lemma PrefixChars(t: string, p: string)
    requires 7 <= |p| <= 8
    ensures StartsWith(t, p) <==>
      && |p| <= |t| && t[0] == p[0] && t[1] == p[1] && t[2] == p[2] && t[3] == p[3]
      && t[4] == p[4] && t[5] == p[5] && t[6] == p[6] && (|p| == 8 ==> t[7] == p[7])
  {
    PrefixPointwise(t, p);
    if && |p| <= |t| && t[0] == p[0] && t[1] == p[1] && t[2] == p[2] && t[3] == p[3]
       && t[4] == p[4] && t[5] == p[5] && t[6] == p[6] && (|p| == 8 ==> t[7] == p[7]) {
      forall i | 0 <= i < |p| ensures t[i] == p[i] {
        assert i in {0, 1, 2, 3, 4, 5, 6, 7};
      }
    }
  }

  /** The same test on the lower-cased string, position by position on the original. */
  lemma LowerPrefixChars(s: string, p: string)
    requires 7 <= |p| <= 8
    ensures StartsWith(Lower(s), p) <==>
      && |p| <= |s| && Ci(s[0], p[0]) && Ci(s[1], p[1]) && Ci(s[2], p[2]) && Ci(s[3], p[3])
      && Ci(s[4], p[4]) && Ci(s[5], p[5]) && Ci(s[6], p[6]) && (|p| == 8 ==> Ci(s[7], p[7]))
  {
    var t := Lower(s);
    PrefixChars(t, p);
    if |p| <= |s| {
      assert t[0] == LowerChar(s[0]) && t[1] == LowerChar(s[1]) && t[2] == LowerChar(s[2]) && t[3] == LowerChar(s[3]);
      assert t[4] == LowerChar(s[4]) && t[5] == LowerChar(s[5]) && t[6] == LowerChar(s[6]);
      assert |p| == 8 ==> t[7] == LowerChar(s[7]);
    }
  }

  /** The two prefixes of the lower-cased string, position by position. */
  lemma HttpPrefixes(s: string)
    ensures StartsWith(Lower(s), "http://") <==>
      |s| >= 7 && Ci(s[0], 'h') && Ci(s[1], 't') && Ci(s[2], 't') && Ci(s[3], 'p')
      && Ci(s[4], ':') && Ci(s[5], '/') && Ci(s[6], '/')
    ensures StartsWith(Lower(s), "https://") <==>
      |s| >= 8 && Ci(s[0], 'h') && Ci(s[1], 't') && Ci(s[2], 't') && Ci(s[3], 'p')
      && Ci(s[4], 's') && Ci(s[5], ':') && Ci(s[6], '/') && Ci(s[7], '/')
  {
    var p1: string, p2: string := "http://", "https://";
    assert |p1| == 7 && p1[0] == 'h' && p1[1] == 't' && p1[2] == 't' && p1[3] == 'p';
    assert p1[4] == ':' && p1[5] == '/' && p1[6] == '/';
    assert |p2| == 8 && p2[0] == 'h' && p2[1] == 't' && p2[2] == 't' && p2[3] == 'p';
    assert p2[4] == 's' && p2[5] == ':' && p2[6] == '/' && p2[7] == '/';
    LowerPrefixChars(s, p1);
    LowerPrefixChars(s, p2);
  }

  /**
   * `isHttpUrl(value)`: the regular expression `^https?://` with the case-insensitive flag,
   * matched character by character (the optional `s` falls back to `://` right after `p`).
   */
  function IsHttpUrl(s: string): (r: bool)
    ensures r <==> StartsWith(Lower(s), "http://") || StartsWith(Lower(s), "https://")
  {
    HttpPrefixes(s);
    && |s| >= 7 && Ci(s[0], 'h') && Ci(s[1], 't') && Ci(s[2], 't') && Ci(s[3], 'p')
    && if Ci(s[4], 's') then |s| >= 8 && s[5] == ':' && s[6] == '/' && s[7] == '/'
       else s[4] == ':' && s[5] == '/' && s[6] == '/'
  }

  /** The characters `encodeURIComponent` leaves as they are. */
  predicate Unreserved(c: char) {
    ('A' <= c <= 'Z') || ('a' <= c <= 'z') || ('0' <= c <= '9')
    || c == '-' || c == '_' || c == '.' || c == '!' || c == '~' || c == '*' || c == '\'' || c == '(' || c == ')'
  }

  /** An upper-case hexadecimal digit. */
  function HexDigit(d: nat): (c: char)
    requires d < 16
    ensures Unreserved(c)
  {
    "0123456789ABCDEF"[d]
  }

  /** The UTF-8 encoding of one Unicode scalar value. */
  function Utf8(c: char): (r: seq<nat>)
    ensures 1 <= |r| <= 4
    ensures forall i :: 0 <= i < |r| ==> r[i] < 256
  {
    var v := c as int;
    if v < 0x80 then [v]
    else if v < 0x800 then [0xC0 + v / 64, 0x80 + v % 64]
    else if v < 0x10000 then [0xE0 + v / 4096, 0x80 + v / 64 % 64, 0x80 + v % 64]
    else [0xF0 + v / 262144, 0x80 + v / 4096 % 64, 0x80 + v / 64 % 64, 0x80 + v % 64]
  }

  /** `%XX` for each byte. */
  function PercentBytes(bs: seq<nat>): (r: string)
    requires forall i :: 0 <= i < |bs| ==> bs[i] < 256
    ensures |r| == 3 * |bs|
    ensures forall i :: 0 <= i < |r| ==> Unreserved(r[i]) || r[i] == '%'
  {
    if |bs| == 0 then "" else ['%', HexDigit(bs[0] / 16), HexDigit(bs[0] % 16)] + PercentBytes(bs[1..])
  }

  /**
   * `encodeURIComponent(s)`: unreserved characters stay, every other character becomes the
   * percent-escapes of its UTF-8 bytes. Characters here are Unicode scalar values, so the
   * lone-surrogate error cannot arise.
   */
  function EncodeURIComponent(s: string): (r: string)
    ensures |r| >= |s|
    ensures forall i :: 0 <= i < |r| ==> Unreserved(r[i]) || r[i] == '%'
    ensures (forall i :: 0 <= i < |s| ==> Unreserved(s[i])) ==> r == s
  {
    if |s| == 0 then ""
    else
      var head := if Unreserved(s[0]) then [s[0]] else PercentBytes(Utf8(s[0]));
      head + EncodeURIComponent(s[1..])
  }

  /** `sub` occurs at `j` and nowhere before. */
  predicate FirstAt(s: string, sub: string, j: int) {
    OccursAt(s, sub, j) && forall k :: 0 <= k < j ==> !OccursAt(s, sub, k)
  }

  /** `s.replace(sub, x)` puts `x` in place of the first occurrence of `sub`. */
  lemma ReplaceFirstAt(s: string, sub: string, x: string)
    requires Contains(s, sub)
    ensures exists j :: FirstAt(s, sub, j) && ReplaceFirst(s, sub, x) == s[..j] + x + s[j + |sub|..]
  {
    ContainsIffIndexOf(s, sub);
    var j := IndexOfFrom(s, sub, 0).value;
    assert FirstAt(s, sub, j);
  }

  /** `toProxyUrl(proxy, url)` */
  function ToProxyUrl(proxy: string, url: string): (r: string)
    ensures proxy == "" ==> r == url
    ensures proxy != "" && !Contains(proxy, "{url}") ==> r == proxy + EncodeURIComponent(url)
    ensures proxy != "" && Contains(proxy, "{url}") ==>
      exists j :: FirstAt(proxy, "{url}", j) && r == proxy[..j] + EncodeURIComponent(url) + proxy[j + 5..]
  {
    if proxy == "" then url
    else if Contains(proxy, "{url}") then
      ReplaceFirstAt(proxy, "{url}", EncodeURIComponent(url));
      ReplaceFirst(proxy, "{url}", EncodeURIComponent(url))
    else proxy + EncodeURIComponent(url)
  }

  // ---------------------------------------------------------------------------
  // Index entries

  /** The places `extractEntries` looks for the list of entries, in order. */
  function EntrySources(indexData: JsValue): (r: seq<JsValue>)
    ensures |r| == 5
  {
    [indexData, Get(indexData, "files"), Get(indexData, "items"), Get(indexData, "data"), Get(indexData, "list")]
  }

  /** `extractEntries(indexData)` */
  function ExtractEntries(indexData: JsValue): (r: seq<JsValue>)
    ensures var src := EntrySources(indexData);
      || (exists k :: 0 <= k < 5 && src[k] == JArray(r) && forall j :: 0 <= j < k ==> !src[j].JArray?)
      || (r == [] && forall j :: 0 <= j < 5 ==> !src[j].JArray?)
  {
    var src := EntrySources(indexData);
    if src[0].JArray? then src[0].elems
    else if src[1].JArray? then src[1].elems
    else if src[2].JArray? then src[2].elems
    else if src[3].JArray? then src[3].elems
    else if src[4].JArray? then src[4].elems
    else []
  }

  /** A field of a parsed JSON value is parsed JSON too, or undefined. */
  lemma GetJson(v: JsValue, k: string)
    requires IsJsonData(v)
    ensures Get(v, k).JUndefined? || IsJsonData(Get(v, k))
  {
    if v.JObject? {
      match KeyIndex(v.fields, k)
      case Some(i) => assert IsJsonData(v.fields[i].value);
      case None =>
    }
  }

  /** `entry?.f` is truthy and `String(entry.f)` is an http(s) url. */
  predicate HttpField(entry: JsValue, f: string)
    requires IsJsonData(entry)
  {
    GetJson(entry, f);
    Truthy(Get(entry, f)) && IsHttpUrl(Text(Get(entry, f)))
  }

  /** `${baseUrl}${entry.f}` when `entry?.f` and `baseUrl` are both truthy. */
  predicate BaseField(entry: JsValue, f: string, baseUrl: string) {
    Truthy(Get(entry, f)) && baseUrl != ""
  }

  function Joined(entry: JsValue, f: string, baseUrl: string): string
    requires IsJsonData(entry)
  {
    GetJson(entry, f);
    baseUrl + Text(Get(entry, f))
  }

  /** `buildEntryUrl(entry, baseUrl)`: the entry's own http url if it has one, else one built on the base. */
  function BuildEntryUrl(entry: JsValue, baseUrl: string): (r: JsValue)
    requires IsJsonData(entry)
    ensures HttpField(entry, "url") ==> r == Get(entry, "url")
    ensures r != JStr("") ==> Truthy(r)
    ensures !HttpField(entry, "url") && !HttpField(entry, "path") && baseUrl == "" ==> r == JStr("")
    ensures (!Truthy(Get(entry, "url")) && !Truthy(Get(entry, "path")) && !Truthy(Get(entry, "id"))
             && !Truthy(Get(entry, "itemId"))) ==> r == JStr("")
  {
    if HttpField(entry, "url") then Get(entry, "url")
    else if HttpField(entry, "path") then Get(entry, "path")
    else if BaseField(entry, "id", baseUrl) then JStr(Joined(entry, "id", baseUrl))
    else if BaseField(entry, "itemId", baseUrl) then JStr(Joined(entry, "itemId", baseUrl))
    else if BaseField(entry, "path", baseUrl) then JStr(Joined(entry, "path", baseUrl))
    else JStr("")
  }

  /** Where `buildEntryUrl` takes the url from. */
  datatype UrlSource = OwnUrl | OwnPath | BaseId | BaseItemId | BasePath | NoUrl

  /** The first applicable rule, in the order the source tries them. */
  function UrlRule(entry: JsValue, baseUrl: string): UrlSource
    requires IsJsonData(entry)
  {
    if HttpField(entry, "url") then OwnUrl
    else if HttpField(entry, "path") then OwnPath
    else if BaseField(entry, "id", baseUrl) then BaseId
    else if BaseField(entry, "itemId", baseUrl) then BaseItemId
    else if BaseField(entry, "path", baseUrl) then BasePath
    else NoUrl
  }

  /** Each rule gives its own url: the entry's field, or the base followed by `String()` of a field. */
  lemma BuildEntryUrlRule(entry: JsValue, baseUrl: string)
    requires IsJsonData(entry)
    ensures var r := BuildEntryUrl(entry, baseUrl);
      match UrlRule(entry, baseUrl)
      case OwnUrl => r == Get(entry, "url") && IsHttpUrl(Text(r))
      case OwnPath => r == Get(entry, "path") && IsHttpUrl(Text(r))
      case BaseId => r.JStr? && StartsWith(r.s, baseUrl) && r.s[|baseUrl|..] == Text(Get(entry, "id"))
      case BaseItemId => r.JStr? && StartsWith(r.s, baseUrl) && r.s[|baseUrl|..] == Text(Get(entry, "itemId"))
      case BasePath => r.JStr? && StartsWith(r.s, baseUrl) && r.s[|baseUrl|..] == Text(Get(entry, "path"))
      case NoUrl => r == JStr("")
  {
    GetJson(entry, "id");
    GetJson(entry, "itemId");
    GetJson(entry, "path");
  }

  // ---------------------------------------------------------------------------
  // File names

  /** No path separator, query or fragment mark. */
  predicate NoSeparator(s: string) {
    '/' !in s && '?' !in s && '#' !in s
  }

  /** `s.endsWith('.json') ? s : `${s}.json`` */
  function WithJson(s: string): (r: string)
    ensures EndsWith(r, ".json")
    ensures NoSeparator(s) ==> NoSeparator(r)
    ensures EndsWith(s, ".json") ==> r == s
    ensures !EndsWith(s, ".json") ==> |r| == |s| + 5 && r[..|s|] == s
  {
    if EndsWith(s, ".json") then s else s + ".json"
  }

  /** The last path segment of a url, after dropping its query and fragment. */
  function UrlSegment(url: string): (r: string)
    ensures NoSeparator(r)
  {
    var base := BeforeFirst(BeforeFirst(url, '?'), '#');
    var last := AfterLast(base, '/');
    assert forall c :: c in last ==> c in base;
    assert forall c :: c in base ==> c in BeforeFirst(url, '?');
    last
  }

  /** `item-<index + 1>` */
  function Numbered(index: nat): (r: string)
    ensures NoSeparator(r) && |r| > 0 && '0' <= r[|r| - 1] <= '9'
  {
    var digits := NatText(index + 1);
    assert forall c :: c in digits ==> '0' <= c <= '9';
    "item-" + digits
  }

  /** The name taken from a url: its last segment, or the numbered name when that is empty. */
  function UrlFileName(url: string, index: nat): (r: string)
    ensures EndsWith(r, ".json") && NoSeparator(r)
  {
    var last := UrlSegment(url);
    WithJson(if last == "" then Numbered(index) else last)
  }

  /** `entry?.name || entry?.file || entry?.filename` */
  function NameField(entry: JsValue): JsValue {
    Or(Or(Get(entry, "name"), Get(entry, "file")), Get(entry, "filename"))
  }

  /** `entry?.id || entry?.itemId` */
  function IdField(entry: JsValue): JsValue {
    Or(Get(entry, "id"), Get(entry, "itemId"))
  }

  /**
   * `deriveFileName(entry, url, index)`. A truthy non-string name, or a truthy non-string url
   * when the entry has no name or id, makes the source call a string method on a non-string,
   * which throws a `TypeError`.
   */
  function DeriveFileName(entry: JsValue, url: JsValue, index: nat): (r: Result<string, string>)
    requires IsJsonData(entry)
    ensures r.Success? ==> EndsWith(r.value, ".json")
    ensures r.Failure? <==>
      || (Truthy(NameField(entry)) && !NameField(entry).JStr?)
      || (!Truthy(NameField(entry)) && !Truthy(IdField(entry)) && Truthy(url) && !url.JStr?)
  {
    var fromEntry := NameField(entry);
    if Truthy(fromEntry) then
      if fromEntry.JStr? then Success(WithJson(fromEntry.s)) else Failure("TypeError")
    else
      var fromId := IdField(entry);
      if Truthy(fromId) then
        GetJson(entry, "id");
        GetJson(entry, "itemId");
        Success("id" + Text(fromId) + ".json")
      else if Truthy(url) then
        if url.JStr? then Success(UrlFileName(url.s, index)) else Failure("TypeError")
      else Success(Numbered(index) + ".json")
  }

  /** An entry that names no file and has no id: the name is decided by the url and the index alone. */
  predicate Anonymous(entry: JsValue) {
    !Truthy(Get(entry, "name")) && !Truthy(Get(entry, "file")) && !Truthy(Get(entry, "filename"))
    && !Truthy(Get(entry, "id")) && !Truthy(Get(entry, "itemId"))
  }

  /** An anonymous entry is named from its url when that is a non-empty string, else by its position. */
  lemma AnonymousFileName(entry: JsValue, url: string, index: nat)
    requires IsJsonData(entry) && Anonymous(entry)
    ensures DeriveFileName(entry, JStr(url), index)
         == Success(if url == "" then Numbered(index) + ".json" else UrlFileName(url, index))
  {

  }

  /** Splitting after a part with no separator keeps that part. */
  lemma {:induction false} BeforeFirstSplit(a: string, b: string, c: char)
    requires c !in a
    ensures BeforeFirst(a + b, c) == a + BeforeFirst(b, c)
    decreases |a|
  {
    if |a| == 0 {
      assert a + b == b;
    } else {
      assert (a + b)[0] == a[0] && (a + b)[1..] == a[1..] + b;
      BeforeFirstSplit(a[1..], b, c);
      assert a == [a[0]] + a[1..];
    }
  }

  /** The part after the last separator, when a segment without it ends the string. */
  lemma {:induction false} AfterLastConcat(a: string, seg: string, c: char)
    requires c !in seg
    ensures AfterLast(a + [c] + seg, c) == seg
    decreases |seg|
  {
    var s := a + [c] + seg;
    if |seg| == 0 {
      assert s[|s| - 1] == c;
    } else {
      var init := seg[..|seg| - 1];
      assert s[|s| - 1] == seg[|seg| - 1];
      assert s[..|s| - 1] == a + [c] + init;
      AfterLastConcat(a, init, c);
      assert seg == init + [seg[|seg| - 1]];
    }
  }

  /** The segment of `dir/seg?query#fragment` (query and fragment optional) is `seg`. */
  lemma UrlSegmentOf(dir: string, seg: string, tail: string)
    requires '/' !in seg && '?' !in seg && '#' !in seg && '?' !in dir && '#' !in dir
    requires |tail| == 0 || tail[0] == '?' || tail[0] == '#'
    ensures UrlSegment(dir + "/" + seg + tail) == seg
  {
    var path := dir + "/" + seg;
    assert '?' !in path && '#' !in path;
    BeforeFirstSplit(path, tail, '?');
    var t := BeforeFirst(tail, '?');
    assert |t| == 0 || t[0] == '#';
    BeforeFirstSplit(path, t, '#');
    assert BeforeFirst(t, '#') == "";
    assert path + "" == path;
    AfterLastConcat(dir, seg, '/');
    assert path == dir + ['/'] + seg;
  }

  /**
   * An anonymous entry fetched from `dir/seg?query#fragment` is saved as `seg`, with `.json`
   * added unless it already ends so.
   */
  lemma AnonymousUrlName(entry: JsValue, dir: string, seg: string, tail: string, index: nat)
    requires IsJsonData(entry) && Anonymous(entry)
    requires seg != "" && '/' !in seg && '?' !in seg && '#' !in seg && '?' !in dir && '#' !in dir
    requires |tail| == 0 || tail[0] == '?' || tail[0] == '#'
    ensures DeriveFileName(entry, JStr(dir + "/" + seg + tail), index) == Success(WithJson(seg))
  {
    UrlSegmentOf(dir, seg, tail);
    AnonymousFileName(entry, dir + "/" + seg + tail, index);
  }
}
