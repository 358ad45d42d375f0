// The tag resolver (src/jei/tags/resolve.ts): tag ids are normalised to `namespace:name`,
// recursive `#tag` references are resolved depth-first with a memo and an on-path set, and
// the result is turned into two maps, tag -> item ids and item id -> tags.
module TagResolve {
  import opened Wrappers
  import opened Strings
  import opened JsValues
  import opened PackTypes

  /** The id with one leading `#` removed. */
  function StripHash(tagId: string): (r: string)
    ensures StartsWith(tagId, "#") ==> tagId == "#" + r
    ensures !StartsWith(tagId, "#") ==> r == tagId
  {
    if StartsWith(tagId, "#") then tagId[1..] else tagId
  }

  /** `normalizeTagId(tagId, defaultNamespace)` */
  function NormalizeTagId(tagId: string, ns: string): (r: string)
    ensures r == "" <==> StripHash(tagId) == ""
    ensures r != "" ==> ':' in r
    ensures ':' in StripHash(tagId) ==> r == StripHash(tagId)
    ensures StripHash(tagId) != "" && ':' !in StripHash(tagId) ==> r == ns + ":" + StripHash(tagId)
  {
    var t := StripHash(tagId);
    if t == "" then ""
    else if ':' in t then t
    else
      assert (ns + ":" + t)[|ns|] == ':';
      ns + ":" + t
  }

  /** `valueId(v)`: a plain string is a required id; an object is required unless `required === false`. */
  function ValueId(v: TagValue): (r: (JsValue, bool))
    ensures v.TagValueStr? ==> r == (JStr(v.s), true)
    ensures v.TagValueObj? ==> r.0 == v.id && (r.1 <==> v.required != JBool(false))
  {
    match v
    case TagValueStr(s) => (JStr(s), true)
    case TagValueObj(id, required) => (id, required != JBool(false))
  }

  /** `typeof id !== 'string' || !id` */
  predicate Malformed(id: JsValue) {
    !(id.JStr? && id.s != "")
  }

  /** Everything `buildTagIndex` reads from the pack, plus which id the invalidity check uses. */
  datatype Ctx = Ctx(ns: string, defs: seq<TagEntry>, known: set<string>, recheck: bool)

  /** The memo and the invalid set; `visiting` is restored on every exit, so it is a parameter. */
  datatype ResolveState = ResolveState(resolved: seq<(string, set<string>)>, invalid: set<string>)

  /** `resolved.get(tagId)` */
  function Cached(resolved: seq<(string, set<string>)>, t: string): (r: Option<set<string>>)
    ensures r.None? <==> forall j :: 0 <= j < |resolved| ==> resolved[j].0 != t
    ensures r.Some? ==> exists j :: 0 <= j < |resolved| && resolved[j] == (t, r.value)
  {
    if |resolved| == 0 then None
    else if resolved[0].0 == t then Some(resolved[0].1)
    else
      var r := Cached(resolved[1..], t);
      assert forall j :: 0 < j < |resolved| ==> resolved[j] == resolved[1..][j - 1];
      r
  }

  function Invalidate(st: ResolveState, t: string): (r: ResolveState)
    ensures r.resolved == st.resolved && r.invalid == st.invalid + {t}
  {
    st.(invalid := st.invalid + {t})
  }

  /** The keys of `tagDefs`. */
  function DefinedIds(defs: seq<TagEntry>): (r: set<string>)
    ensures forall i :: 0 <= i < |defs| ==> defs[i].tagId in r
    ensures forall t :: t in r ==> exists i :: 0 <= i < |defs| && defs[i].tagId == t
  {
    set i | 0 <= i < |defs| :: defs[i].tagId
  }

  /**
   * The id whose invalidity a `#ref` value checks after resolving it. As written, the check
   * uses `refId` itself although `resolveTag` normalises it once more; with `recheck` the
   * check uses the id that was actually resolved.
   */
  function RefCheckId(c: Ctx, refId: string): string {
    if c.recheck then NormalizeTagId(refId, c.ns) else refId
  }

  /** Every entry's items are known item ids. */
  predicate KnownItems(c: Ctx, st: ResolveState) {
    forall j :: 0 <= j < |st.resolved| ==> st.resolved[j].1 <= c.known
  }

  lemma DefinedShrinks(d: set<string>, v: set<string>, t: string)
    requires t in d && t !in v
    ensures |d - (v + {t})| < |d - v|
  {
    assert d - (v + {t}) == (d - v) - {t};
  }

  /** `resolveTag(rawTagId)`, with the on-path set `visiting`. */
  function ResolveTag(c: Ctx, raw: string, visiting: set<string>, st: ResolveState): (r: (set<string>, ResolveState))
    ensures KnownItems(c, st) ==> KnownItems(c, r.1) && r.0 <= c.known
    ensures st.invalid <= r.1.invalid && st.resolved <= r.1.resolved
    decreases |DefinedIds(c.defs) - visiting|, 0
  {
    var t := NormalizeTagId(raw, c.ns);
    if t == "" || t in st.invalid then ({}, st)
    else match Cached(st.resolved, t)
      case Some(s) => (s, st)
      case None =>
        if t in visiting then ({}, Invalidate(st, t))
        else match TagDefOf(c.defs, t)
          case None => ({}, Invalidate(st, t))
          case Some(d) =>
            DefinedShrinks(DefinedIds(c.defs), visiting, t);
            ResolveValues(c, t, d.values, {}, visiting + {t}, st)
  }

  /**
   * The loop over `def.values` of tag `t` (already on the path), with `acc` the items
   * collected so far. Any bad value invalidates `t` and returns the empty set; reaching the
   * end records `acc` as the resolved set of `t`.
   */
  function ResolveValues(c: Ctx, t: string, vals: seq<TagValue>, acc: set<string>, visiting: set<string>, st: ResolveState)
    : (r: (set<string>, ResolveState))
    ensures KnownItems(c, st) && acc <= c.known ==> KnownItems(c, r.1) && r.0 <= c.known
    ensures st.invalid <= r.1.invalid && st.resolved <= r.1.resolved
    decreases |DefinedIds(c.defs) - visiting|, 1, |vals|
  {
    if |vals| == 0 then (acc, st.(resolved := st.resolved + [(t, acc)]))
    else
      var (id, required) := ValueId(vals[0]);
      if Malformed(id) then ({}, Invalidate(st, t))
      else if StartsWith(id.s, "#") then
        var refId := NormalizeTagId(id.s, c.ns);
        var (items, st1) := ResolveTag(c, refId, visiting, st);
        if RefCheckId(c, refId) in st1.invalid then ({}, Invalidate(st1, t))
        else ResolveValues(c, t, vals[1..], acc + items, visiting, st1)
      else if id.s !in c.known then
        if required then ({}, Invalidate(st, t)) else ResolveValues(c, t, vals[1..], acc, visiting, st)
      else ResolveValues(c, t, vals[1..], acc + {id.s}, visiting, st)
  }

  /** `Object.keys(tagDefs).forEach((tagId) => resolveTag(tagId))` */
  function ResolveAll(c: Ctx, keys: seq<string>, st: ResolveState): (r: ResolveState)
    ensures KnownItems(c, st) ==> KnownItems(c, r)
    ensures st.invalid <= r.invalid && st.resolved <= r.resolved
  {
    if |keys| == 0 then st else ResolveAll(c, keys[1..], ResolveTag(c, keys[0], {}, st).1)
  }

  // ---------------------------------------------------------------------------
  // The two output maps

  /** The result of `buildTagIndex`: `itemIdsByTagId` and `tagIdsByItemId`. */
  datatype TagIndex = TagIndex(itemIdsByTagId: map<string, set<string>>, tagIdsByItemId: map<string, set<string>>)

  function GetSet(m: map<string, set<string>>, k: string): set<string> {
    if k in m then m[k] else {}
  }

  /** `addItemToTag` followed by `addTagToItem`. */
  function AddPair(ix: TagIndex, t: string, item: string): (r: TagIndex)
    ensures forall k :: GetSet(r.itemIdsByTagId, k) == GetSet(ix.itemIdsByTagId, k) + (if k == t then {item} else {})
    ensures forall k :: GetSet(r.tagIdsByItemId, k) == GetSet(ix.tagIdsByItemId, k) + (if k == item then {t} else {})
    ensures r.itemIdsByTagId.Keys == ix.itemIdsByTagId.Keys + {t}
    ensures r.tagIdsByItemId.Keys == ix.tagIdsByItemId.Keys + {item}
  {
    TagIndex(
      ix.itemIdsByTagId[t := GetSet(ix.itemIdsByTagId, t) + {item}],
      ix.tagIdsByItemId[item := GetSet(ix.tagIdsByItemId, item) + {t}])
  }

  /** The tags one item definition declares, in order; empty normalised ids are skipped. */
  function AddItemDefTags(ix: TagIndex, ns: string, item: string, raws: seq<string>): TagIndex
    decreases |raws|
  {
    if |raws| == 0 then ix
    else
      var t := NormalizeTagId(raws[0], ns);
      AddItemDefTags(if t == "" then ix else AddPair(ix, t, item), ns, item, raws[1..])
  }

  /** `pack.items.forEach(addItemDefTags)` */
  function AddAllItemDefTags(ix: TagIndex, ns: string, items: seq<ItemDef>): TagIndex
    decreases |items|
  {
    if |items| == 0 then ix
    else AddAllItemDefTags(AddItemDefTags(ix, ns, items[0].key.id, items[0].tags), ns, items[1..])
  }

  /** `items.forEach((itemId) => { addItemToTag(...); addTagToItem(...) })` for one resolved tag. */
  function AddTagItems(ix: TagIndex, t: string, items: set<string>): (r: TagIndex)
    ensures forall k :: GetSet(r.itemIdsByTagId, k) == GetSet(ix.itemIdsByTagId, k) + (if k == t then items else {})
    ensures forall k :: GetSet(r.tagIdsByItemId, k) == GetSet(ix.tagIdsByItemId, k) + (if k in items then {t} else {})
    ensures r.itemIdsByTagId.Keys == ix.itemIdsByTagId.Keys + (if items == {} then {} else {t})
    ensures r.tagIdsByItemId.Keys == ix.tagIdsByItemId.Keys + items
  {
    TagIndex(
      if items == {} then ix.itemIdsByTagId else ix.itemIdsByTagId[t := GetSet(ix.itemIdsByTagId, t) + items],
      map k | k in ix.tagIdsByItemId.Keys + items :: GetSet(ix.tagIdsByItemId, k) + (if k in items then {t} else {}))
  }

  /** `resolved.forEach(...)` */
  function AddResolved(ix: TagIndex, resolved: seq<(string, set<string>)>): TagIndex
    decreases |resolved|
  {
    if |resolved| == 0 then ix else AddResolved(AddTagItems(ix, resolved[0].0, resolved[0].1), resolved[1..])
  }

  function KnownItemIds(items: seq<ItemDef>): (r: set<string>)
    ensures forall i :: 0 <= i < |items| ==> items[i].key.id in r
    ensures forall x :: x in r ==> exists i :: 0 <= i < |items| && items[i].key.id == x
  {
    set i | 0 <= i < |items| :: items[i].key.id
  }

  function TagKeys(defs: seq<TagEntry>): (r: seq<string>)
    ensures |r| == |defs| && forall i :: 0 <= i < |defs| ==> r[i] == defs[i].tagId
  {
    if |defs| == 0 then [] else [defs[0].tagId] + TagKeys(defs[1..])
  }

  function TagCtx(pack: PackData, recheck: bool): Ctx {
    Ctx(pack.gameId, pack.tagDefs, KnownItemIds(pack.items), recheck)
  }

  /** The memo and invalid set after resolving every defined tag. */
  function ResolveTagDefs(pack: PackData, recheck: bool): (r: ResolveState)
    ensures KnownItems(TagCtx(pack, recheck), r)
  {
    ResolveAll(TagCtx(pack, recheck), TagKeys(pack.tagDefs), ResolveState([], {}))
  }

  /** `buildTagIndex(pack)`, with the invalidity check as written (`recheck` false) or corrected. */
  function BuildTagIndexWith(pack: PackData, recheck: bool): TagIndex {
    var ix := AddAllItemDefTags(TagIndex(map[], map[]), pack.gameId, pack.items);
    AddResolved(ix, ResolveTagDefs(pack, recheck).resolved)
  }

}
