// What the tag resolver guarantees: normalisation, the error cases that invalidate a tag,
// that a tag is never both resolved and invalid, and that the two output maps are inverses.
module TagResolveProps {
  import opened Wrappers
  import opened Strings
  import opened JsValues
  import opened PackTypes
  import opened TagResolve

  // ---------------------------------------------------------------------------
  // Normalisation

  /** Normalising a result that does not start with `#` changes nothing. */
  lemma NormalizeIdempotent(x: string, ns: string)
    requires !StartsWith(NormalizeTagId(x, ns), "#")
    ensures NormalizeTagId(NormalizeTagId(x, ns), ns) == NormalizeTagId(x, ns)
  {
  }

  /** A `##` id is normalised to an id that normalises again to something else. */
  lemma NormalizeDoubleHash()
    ensures NormalizeTagId("##g:a", "g") == "#g:a"
    ensures NormalizeTagId(NormalizeTagId("##g:a", "g"), "g") == "g:a"
  {
    assert StartsWith("##g:a", "#");
    assert StripHash("##g:a") == "#g:a";
    assert ':' in "#g:a" by { assert "#g:a"[2] == ':'; }
    assert StartsWith("#g:a", "#");
    assert StripHash("#g:a") == "g:a";
    assert ':' in "g:a" by { assert "g:a"[1] == ':'; }
  }

  // ---------------------------------------------------------------------------
  // Outcome of one resolution

  /** Resolution completed: the last memo entry is `t` with the returned set. */
  predicate Completed(st: ResolveState, t: string, r: (set<string>, ResolveState)) {
    |r.1.resolved| > |st.resolved| && r.1.resolved[|r.1.resolved| - 1] == (t, r.0)
  }

  /** The values loop either invalidates `t` with the empty set, or records what it collected. */
  lemma {:induction false} ResolveValuesOutcome(c: Ctx, t: string, vals: seq<TagValue>, acc: set<string>, visiting: set<string>, st: ResolveState)
    ensures var r := ResolveValues(c, t, vals, acc, visiting, st);
      (r.0 == {} && t in r.1.invalid) || (Completed(st, t, r) && acc <= r.0)
    decreases |vals|
  {
    if |vals| > 0 {
      var (id, required) := ValueId(vals[0]);
      if !Malformed(id) {
        var next: (set<string>, ResolveState) :=
          if StartsWith(id.s, "#") then
            var (items, st1) := ResolveTag(c, NormalizeTagId(id.s, c.ns), visiting, st);
            (acc + items, st1)
          else if id.s !in c.known then (acc, st)
          else (acc + {id.s}, st);
        var r := ResolveValues(c, t, vals, acc, visiting, st);
        if r != ResolveValues(c, t, vals[1..], next.0, visiting, next.1) {
          assert r.0 == {} && t in r.1.invalid;
        } else {
          ResolveValuesOutcome(c, t, vals[1..], next.0, visiting, next.1);
          assert |st.resolved| <= |next.1.resolved|;
        }
      }
    }
  }

  /**
   * `resolveTag` of an id that is neither empty, invalid nor memoised: re-entering a tag on
   * the current path or naming an undefined tag invalidates it with the empty set; any other
   * resolution either invalidates it or completes and memoises the returned set.
   */
  lemma ResolveTagOutcome(c: Ctx, raw: string, visiting: set<string>, st: ResolveState)
    requires NormalizeTagId(raw, c.ns) != "" && NormalizeTagId(raw, c.ns) !in st.invalid
    requires Cached(st.resolved, NormalizeTagId(raw, c.ns)).None?
    ensures var t := NormalizeTagId(raw, c.ns);
      var r := ResolveTag(c, raw, visiting, st);
      (t in visiting || TagDefOf(c.defs, t).None? ==> r.0 == {} && r.1 == Invalidate(st, t))
      && ((r.0 == {} && t in r.1.invalid) || Completed(st, t, r))
  {
    var t := NormalizeTagId(raw, c.ns);
    if t !in visiting && TagDefOf(c.defs, t).Some? {
      ResolveValuesOutcome(c, t, TagDefOf(c.defs, t).value.values, {}, visiting + {t}, st);
    }
  }

  /** A value that is an item id: a non-empty string not starting with `#`. */
  predicate PlainItem(v: TagValue) {
    var id := ValueId(v).0;
    !Malformed(id) && !StartsWith(id.s, "#")
  }

  /**
   * A malformed value, or a required value naming an unknown item, anywhere in the values
   * still to be read makes the tag invalid with the empty set.
   */
  lemma {:induction false} BadValueInvalidates(c: Ctx, t: string, vals: seq<TagValue>, acc: set<string>, visiting: set<string>, st: ResolveState, j: nat)
    requires j < |vals|
    requires Malformed(ValueId(vals[j]).0)
      || (PlainItem(vals[j]) && ValueId(vals[j]).1 && ValueId(vals[j]).0.s !in c.known)
    ensures var r := ResolveValues(c, t, vals, acc, visiting, st);
      r.0 == {} && t in r.1.invalid
    decreases j
  {
    var (id, required) := ValueId(vals[0]);
    if j > 0 && !Malformed(id) {
      assert vals[1..][j - 1] == vals[j];
      if StartsWith(id.s, "#") {
        var refId := NormalizeTagId(id.s, c.ns);
        var (items, st1) := ResolveTag(c, refId, visiting, st);
        if RefCheckId(c, refId) !in st1.invalid {
          BadValueInvalidates(c, t, vals[1..], acc + items, visiting, st1, j - 1);
        }
      } else if id.s !in c.known {
        if !required {
          BadValueInvalidates(c, t, vals[1..], acc, visiting, st, j - 1);
        }
      } else {
        BadValueInvalidates(c, t, vals[1..], acc + {id.s}, visiting, st, j - 1);
      }
    }
  }

  /** A completed resolution contains every known item id listed directly among its values. */
  lemma {:induction false} CompletedHasKnownItems(c: Ctx, t: string, vals: seq<TagValue>, acc: set<string>, visiting: set<string>, st: ResolveState)
    ensures var r := ResolveValues(c, t, vals, acc, visiting, st);
      t !in r.1.invalid ==>
        forall j :: 0 <= j < |vals| && PlainItem(vals[j]) && ValueId(vals[j]).0.s in c.known ==>
          ValueId(vals[j]).0.s in r.0
    decreases |vals|
  {
    if |vals| > 0 {
      var r := ResolveValues(c, t, vals, acc, visiting, st);
      var (id, required) := ValueId(vals[0]);
      if !Malformed(id) && t !in r.1.invalid {
        var next: (set<string>, ResolveState) :=
          if StartsWith(id.s, "#") then
            var (items, st1) := ResolveTag(c, NormalizeTagId(id.s, c.ns), visiting, st);
            (acc + items, st1)
          else if id.s !in c.known then (acc, st)
          else (acc + {id.s}, st);
        assert r == ResolveValues(c, t, vals[1..], next.0, visiting, next.1);
        CompletedHasKnownItems(c, t, vals[1..], next.0, visiting, next.1);
        ResolveValuesOutcome(c, t, vals[1..], next.0, visiting, next.1);
        forall j | 0 <= j < |vals| && PlainItem(vals[j]) && ValueId(vals[j]).0.s in c.known
          ensures ValueId(vals[j]).0.s in r.0
        {
          if j > 0 {
            assert vals[1..][j - 1] == vals[j];
          }
        }
      }
    }
  }

  // ---------------------------------------------------------------------------
  // No tag ends both resolved and invalid

  /** A `#ref` value whose normalised id normalises to itself. */
  predicate WellFormedRef(v: TagValue, ns: string) {
    var id := ValueId(v).0;
    !Malformed(id) && StartsWith(id.s, "#") ==>
      NormalizeTagId(NormalizeTagId(id.s, ns), ns) == NormalizeTagId(id.s, ns)
  }

  /** The invalidity check looks at the id that was resolved: corrected, or every reference well formed. */
  predicate ValuesChecked(c: Ctx, vals: seq<TagValue>) {
    c.recheck || forall j :: 0 <= j < |vals| ==> WellFormedRef(vals[j], c.ns)
  }

  predicate RefsChecked(c: Ctx) {
    c.recheck || forall i :: 0 <= i < |c.defs| ==> ValuesChecked(c, c.defs[i].def.values)
  }

  /** No memoised tag is invalid. */
  predicate Disjoint(st: ResolveState) {
    forall j :: 0 <= j < |st.resolved| ==> st.resolved[j].0 !in st.invalid
  }

  /** No tag on the current path is memoised. */
  predicate OffPath(visiting: set<string>, st: ResolveState) {
    forall j :: 0 <= j < |st.resolved| ==> st.resolved[j].0 !in visiting
  }

  lemma DefinedValuesChecked(c: Ctx, t: string)
    requires RefsChecked(c) && TagDefOf(c.defs, t).Some?
    ensures ValuesChecked(c, TagDefOf(c.defs, t).value.values)
  {
  }

  /**
   * Resolving a tag keeps the memo and the invalid set disjoint, memoises no tag on the path,
   * and invalidates a tag already on the path only together with the tag being resolved.
   */
  lemma {:induction false} ResolveTagDisjoint(c: Ctx, raw: string, visiting: set<string>, st: ResolveState)
    requires RefsChecked(c) && Disjoint(st) && OffPath(visiting, st)
    ensures var r := ResolveTag(c, raw, visiting, st);
      Disjoint(r.1) && OffPath(visiting, r.1)
      && (forall x :: x in visiting && x in r.1.invalid && x !in st.invalid ==> NormalizeTagId(raw, c.ns) in r.1.invalid)
    decreases |DefinedIds(c.defs) - visiting|, 0
  {
    var t := NormalizeTagId(raw, c.ns);
    var r := ResolveTag(c, raw, visiting, st);
    if t == "" || t in st.invalid || Cached(st.resolved, t).Some? {
      assert r.1 == st;
    } else if t in visiting || TagDefOf(c.defs, t).None? {
      assert r.1 == Invalidate(st, t);
      InvalidateUnmemoised(st, t);
    } else {
      var d := TagDefOf(c.defs, t).value;
      assert r == ResolveValues(c, t, d.values, {}, visiting + {t}, st);
      DefinedShrinks(DefinedIds(c.defs), visiting, t);
      DefinedValuesChecked(c, t);
      ResolveValuesDisjoint(c, t, d.values, {}, visiting + {t}, st);
      PathRestored(visiting, t, st, r.1);
    }
  }

  lemma PathRestored(visiting: set<string>, t: string, st: ResolveState, st': ResolveState)
    requires t !in visiting && OffPath((visiting + {t}) - {t}, st')
    requires forall x :: x in visiting + {t} && x in st'.invalid && x !in st.invalid ==> t in st'.invalid
    ensures OffPath(visiting, st')
    ensures forall x :: x in visiting && x in st'.invalid && x !in st.invalid ==> t in st'.invalid
  {
    assert (visiting + {t}) - {t} == visiting;
  }

  lemma InvalidateUnmemoised(st: ResolveState, t: string)
    requires Disjoint(st) && Cached(st.resolved, t).None?
    ensures Disjoint(Invalidate(st, t))
  {
  }

  /** The values loop of tag `t`, which is on the path and not invalid. */
  lemma {:induction false} ResolveValuesDisjoint(c: Ctx, t: string, vals: seq<TagValue>, acc: set<string>, visiting: set<string>, st: ResolveState)
    requires RefsChecked(c) && ValuesChecked(c, vals)
    requires Disjoint(st) && OffPath(visiting, st) && t in visiting && t !in st.invalid
    ensures var r := ResolveValues(c, t, vals, acc, visiting, st);
      Disjoint(r.1) && OffPath(visiting - {t}, r.1)
      && (forall x :: x in visiting && x in r.1.invalid && x !in st.invalid ==> t in r.1.invalid)
    decreases |DefinedIds(c.defs) - visiting|, 1, |vals|
  {
    if |vals| > 0 {
      var (id, required) := ValueId(vals[0]);
      if !Malformed(id) {
        assert ValuesChecked(c, vals[1..]) by {
          if !c.recheck {
            forall j | 0 <= j < |vals[1..]| ensures WellFormedRef(vals[1..][j], c.ns) {
              assert vals[1..][j] == vals[j + 1];
            }
          }
        }
        if StartsWith(id.s, "#") {
          var refId := NormalizeTagId(id.s, c.ns);
          var (items, st1) := ResolveTag(c, refId, visiting, st);
          ResolveTagDisjoint(c, refId, visiting, st);
          assert RefCheckId(c, refId) == NormalizeTagId(refId, c.ns) by {
            if !c.recheck {
              assert WellFormedRef(vals[0], c.ns);
            }
          }
          if RefCheckId(c, refId) !in st1.invalid {
            assert t !in st1.invalid;
            ResolveValuesDisjoint(c, t, vals[1..], acc + items, visiting, st1);
          }
        } else if id.s !in c.known {
          if !required {
            ResolveValuesDisjoint(c, t, vals[1..], acc, visiting, st);
          }
        } else {
          ResolveValuesDisjoint(c, t, vals[1..], acc + {id.s}, visiting, st);
        }
      }
    }
  }

  lemma {:induction false} ResolveAllDisjoint(c: Ctx, keys: seq<string>, st: ResolveState)
    requires RefsChecked(c) && Disjoint(st)
    ensures Disjoint(ResolveAll(c, keys, st))
    decreases |keys|
  {
    if |keys| > 0 {
      ResolveTagDisjoint(c, keys[0], {}, st);
      ResolveAllDisjoint(c, keys[1..], ResolveTag(c, keys[0], {}, st).1);
    }
  }

  /**
   * With the corrected check, or when every `#ref` value is well formed, no tag is both
   * invalid and resolved once every defined tag has been resolved.
   */
  lemma ResolveTagDefsDisjoint(pack: PackData, recheck: bool)
    requires recheck || RefsChecked(TagCtx(pack, false))
    ensures Disjoint(ResolveTagDefs(pack, recheck))
  {
    ResolveAllDisjoint(TagCtx(pack, recheck), TagKeys(pack.tagDefs), ResolveState([], {}));
  }

  // ---------------------------------------------------------------------------
  // The two output maps

  /** Each map is the other read backwards. */
  ghost predicate Inverse(ix: TagIndex) {
    forall t, i :: i in GetSet(ix.itemIdsByTagId, t) <==> t in GetSet(ix.tagIdsByItemId, i)
  }

  /** The non-empty normalised ids of a list of raw tag ids. */
  function NormalizedTags(ns: string, raws: seq<string>): set<string>
    decreases |raws|
  {
    if |raws| == 0 then {}
    else
      var t := NormalizeTagId(raws[0], ns);
      (if t == "" then {} else {t}) + NormalizedTags(ns, raws[1..])
  }

  /** Some item definition with id `i` lists a tag that normalises to `t`. */
  predicate Declares(ns: string, items: seq<ItemDef>, t: string, i: string) {
    exists k :: 0 <= k < |items| && items[k].key.id == i && t in NormalizedTags(ns, items[k].tags)
  }

  /** Some memo entry for `t` holds `i`. */
  predicate ResolvedHas(resolved: seq<(string, set<string>)>, t: string, i: string) {
    exists j :: 0 <= j < |resolved| && resolved[j].0 == t && i in resolved[j].1
  }

  /** The pair (`t`, `i`) is in both maps after an item definition's tags are added, exactly when declared or already there. */
  lemma {:induction false} AddItemDefTagsAt(ix: TagIndex, ns: string, item: string, raws: seq<string>, t: string, i: string)
    ensures var r := AddItemDefTags(ix, ns, item, raws);
      var added := i == item && t in NormalizedTags(ns, raws);
      (i in GetSet(r.itemIdsByTagId, t) <==> i in GetSet(ix.itemIdsByTagId, t) || added)
      && (t in GetSet(r.tagIdsByItemId, i) <==> t in GetSet(ix.tagIdsByItemId, i) || added)
    decreases |raws|
  {
    if |raws| > 0 {
      var t0 := NormalizeTagId(raws[0], ns);
      AddItemDefTagsAt(if t0 == "" then ix else AddPair(ix, t0, item), ns, item, raws[1..], t, i);
    }
  }

  lemma DeclaresCons(ns: string, items: seq<ItemDef>, t: string, i: string)
    requires |items| > 0
    ensures Declares(ns, items, t, i) <==>
      (items[0].key.id == i && t in NormalizedTags(ns, items[0].tags)) || Declares(ns, items[1..], t, i)
  {
    if Declares(ns, items[1..], t, i) {
      var k :| 0 <= k < |items[1..]| && items[1..][k].key.id == i && t in NormalizedTags(ns, items[1..][k].tags);
      assert items[1..][k] == items[k + 1];
    }
    if Declares(ns, items, t, i) {
      var k :| 0 <= k < |items| && items[k].key.id == i && t in NormalizedTags(ns, items[k].tags);
      if k > 0 {
        assert items[1..][k - 1] == items[k];
      }
    }
  }

  lemma {:induction false} AddAllItemDefTagsAt(ix: TagIndex, ns: string, items: seq<ItemDef>, t: string, i: string)
    ensures var r := AddAllItemDefTags(ix, ns, items);
      (i in GetSet(r.itemIdsByTagId, t) <==> i in GetSet(ix.itemIdsByTagId, t) || Declares(ns, items, t, i))
      && (t in GetSet(r.tagIdsByItemId, i) <==> t in GetSet(ix.tagIdsByItemId, i) || Declares(ns, items, t, i))
    decreases |items|
  {
    if |items| > 0 {
      AddItemDefTagsAt(ix, ns, items[0].key.id, items[0].tags, t, i);
      AddAllItemDefTagsAt(AddItemDefTags(ix, ns, items[0].key.id, items[0].tags), ns, items[1..], t, i);
      DeclaresCons(ns, items, t, i);
    }
  }

  lemma ResolvedHasCons(resolved: seq<(string, set<string>)>, t: string, i: string)
    requires |resolved| > 0
    ensures ResolvedHas(resolved, t, i) <==>
      (resolved[0].0 == t && i in resolved[0].1) || ResolvedHas(resolved[1..], t, i)
  {
    if ResolvedHas(resolved[1..], t, i) {
      var j :| 0 <= j < |resolved[1..]| && resolved[1..][j].0 == t && i in resolved[1..][j].1;
      assert resolved[1..][j] == resolved[j + 1];
    }
    if ResolvedHas(resolved, t, i) {
      var j :| 0 <= j < |resolved| && resolved[j].0 == t && i in resolved[j].1;
      if j > 0 {
        assert resolved[1..][j - 1] == resolved[j];
      }
    }
  }

  lemma {:induction false} AddResolvedAt(ix: TagIndex, resolved: seq<(string, set<string>)>, t: string, i: string)
    ensures var r := AddResolved(ix, resolved);
      (i in GetSet(r.itemIdsByTagId, t) <==> i in GetSet(ix.itemIdsByTagId, t) || ResolvedHas(resolved, t, i))
      && (t in GetSet(r.tagIdsByItemId, i) <==> t in GetSet(ix.tagIdsByItemId, i) || ResolvedHas(resolved, t, i))
    decreases |resolved|
  {
    if |resolved| > 0 {
      AddResolvedAt(AddTagItems(ix, resolved[0].0, resolved[0].1), resolved[1..], t, i);
      ResolvedHasCons(resolved, t, i);
    }
  }

  /**
   * `buildTagIndex`: tag `t` lists item `i`, and item `i` lists tag `t`, exactly when a
   * definition of `i` declares `t` or `t` resolved to a set holding `i`.
   */
  lemma BuildTagIndexAt(pack: PackData, recheck: bool, t: string, i: string)
    ensures var r := BuildTagIndexWith(pack, recheck);
      var expected := Declares(pack.gameId, pack.items, t, i) || ResolvedHas(ResolveTagDefs(pack, recheck).resolved, t, i);
      (i in GetSet(r.itemIdsByTagId, t) <==> expected) && (t in GetSet(r.tagIdsByItemId, i) <==> expected)
  {
    var empty := TagIndex(map[], map[]);
    AddAllItemDefTagsAt(empty, pack.gameId, pack.items, t, i);
    AddResolvedAt(AddAllItemDefTags(empty, pack.gameId, pack.items), ResolveTagDefs(pack, recheck).resolved, t, i);
  }

  /** The two maps `buildTagIndex` returns are inverses of each other. */
  lemma BuildTagIndexInverse(pack: PackData, recheck: bool)
    ensures Inverse(BuildTagIndexWith(pack, recheck))
  {
    forall t, i {
      BuildTagIndexAt(pack, recheck, t, i);
    }
  }

  lemma NormalizedTagsNonEmpty(ns: string, raws: seq<string>, t: string)
    requires t in NormalizedTags(ns, raws)
    ensures t != ""
  {
  }

  /** Every item id the index mentions is the id of some item definition, and no tag id is empty. */
  lemma IndexItemsKnown(pack: PackData, recheck: bool, t: string, i: string)
    requires i in GetSet(BuildTagIndexWith(pack, recheck).itemIdsByTagId, t)
    ensures i in KnownItemIds(pack.items)
  {
    BuildTagIndexAt(pack, recheck, t, i);
    var res := ResolveTagDefs(pack, recheck);
    if ResolvedHas(res.resolved, t, i) {
      var j :| 0 <= j < |res.resolved| && res.resolved[j].0 == t && i in res.resolved[j].1;
      assert res.resolved[j].1 <= KnownItemIds(pack.items);
    }
  }

  /**
   * With the corrected check (or well-formed references), an invalid tag lists only the
   * items whose definitions declare it.
   */
  lemma InvalidTagsOnlyDeclared(pack: PackData, recheck: bool, t: string, i: string)
    requires recheck || RefsChecked(TagCtx(pack, false))
    requires t in ResolveTagDefs(pack, recheck).invalid
    ensures i in GetSet(BuildTagIndexWith(pack, recheck).itemIdsByTagId, t) <==> Declares(pack.gameId, pack.items, t, i)
  {
    BuildTagIndexAt(pack, recheck, t, i);
    ResolveTagDefsDisjoint(pack, recheck);
  }

  // ---------------------------------------------------------------------------
  // The `##` reference

  /** Tag `g:a` lists `##g:a`, which names itself, and the item `g:stone`. */
  function DoubleHashPack(): PackData {
    PackData("g", [ItemDef(BareKey("g:stone"), [])], [], [],
      [TagEntry("g:a", TagDef([TagValueStr("##g:a"), TagValueStr("g:stone")]))])
  }

  lemma StartsWithHash(s: string)
    ensures StartsWith(s, "#") <==> |s| > 0 && s[0] == '#'
  {
    if |s| > 0 {
      assert s[..1][0] == s[0];
    }
  }

  lemma NormalizePlain()
    ensures NormalizeTagId("g:a", "g") == "g:a"
    ensures !StartsWith("g:stone", "#")
  {
    StartsWithHash("g:a");
    StartsWithHash("g:stone");
    assert "g:a"[1] == ':';
  }

  lemma DoubleHashContext(recheck: bool)
    ensures TagCtx(DoubleHashPack(), recheck).known == {"g:stone"}
    ensures TagDefOf(DoubleHashPack().tagDefs, "g:a") == Some(TagDef([TagValueStr("##g:a"), TagValueStr("g:stone")]))
    ensures TagKeys(DoubleHashPack().tagDefs) == ["g:a"]
  {
    var items := DoubleHashPack().items;
    assert items[0].key.id == "g:stone";
    assert KnownItemIds(items) == {"g:stone"};
  }

  /** Inside `g:a`, the reference `##g:a` resolves `g:a` again, which is on the path. */
  lemma DoubleHashInner(recheck: bool)
    ensures ResolveTag(TagCtx(DoubleHashPack(), recheck), "#g:a", {"g:a"}, ResolveState([], {}))
      == ({}, ResolveState([], {"g:a"}))
  {
    NormalizeDoubleHash();
    var st := ResolveState([], {});
    assert Cached(st.resolved, "g:a").None?;
    assert Invalidate(st, "g:a") == ResolveState([], {"g:a"});
  }

  /** The first value, `##g:a`: the corrected check stops here, the check as written goes on. */
  lemma DoubleHashFirstValue(recheck: bool)
    ensures var c := TagCtx(DoubleHashPack(), recheck);
      var st1 := ResolveState([], {"g:a"});
      ResolveValues(c, "g:a", [TagValueStr("##g:a"), TagValueStr("g:stone")], {}, {"g:a"}, ResolveState([], {}))
      == if recheck then ({}, st1) else ResolveValues(c, "g:a", [TagValueStr("g:stone")], {}, {"g:a"}, st1)
  {
    var c := TagCtx(DoubleHashPack(), recheck);
    var vals := [TagValueStr("##g:a"), TagValueStr("g:stone")];
    NormalizeDoubleHash();
    StartsWithHash("##g:a");
    DoubleHashInner(recheck);
    assert ValueId(vals[0]) == (JStr("##g:a"), true);
    assert !Malformed(JStr("##g:a")) by { assert |"##g:a"| == 5; }
    assert RefCheckId(c, "#g:a") == if recheck then "g:a" else "#g:a";
    assert "#g:a" != "g:a" by { assert |"#g:a"| == 4; }
    assert vals[1..] == [TagValueStr("g:stone")];
    var st1 := ResolveState([], {"g:a"});
    assert NormalizeTagId(ValueId(vals[0]).0.s, c.ns) == "#g:a";
    if recheck {
      assert st1 == Invalidate(st1, "g:a");
    } else {
      assert "#g:a" !in st1.invalid;
      var emptySet: set<string> := {};
      assert emptySet + emptySet == emptySet;
    }
  }

  /** The second value, the known item `g:stone`, then the end of the list. */
  lemma DoubleHashSecondValue(recheck: bool)
    ensures var st1 := ResolveState([], {"g:a"});
      ResolveValues(TagCtx(DoubleHashPack(), recheck), "g:a", [TagValueStr("g:stone")], {}, {"g:a"}, st1)
      == ({"g:stone"}, ResolveState([("g:a", {"g:stone"})], {"g:a"}))
  {
    var c := TagCtx(DoubleHashPack(), recheck);
    var st1 := ResolveState([], {"g:a"});
    var vals := [TagValueStr("g:stone")];
    NormalizePlain();
    DoubleHashContext(recheck);
    assert ValueId(vals[0]) == (JStr("g:stone"), true);
    assert !Malformed(JStr("g:stone")) by { assert |"g:stone"| == 7; }
    assert vals[1..] == [];
    assert {} + {"g:stone"} == {"g:stone"};
    assert "g:stone" in c.known;
    assert !StartsWith(ValueId(vals[0]).0.s, "#");
    assert ResolveValues(c, "g:a", vals, {}, {"g:a"}, st1) == ResolveValues(c, "g:a", vals[1..], {} + {"g:stone"}, {"g:a"}, st1);
    assert ResolveValues(c, "g:a", [], {"g:stone"}, {"g:a"}, st1) == ({"g:stone"}, ResolveState([] + [("g:a", {"g:stone"})], {"g:a"}));
    assert [] + [("g:a", {"g:stone"})] == [("g:a", {"g:stone"})];
  }

  lemma DoubleHashValues(recheck: bool)
    ensures var c := TagCtx(DoubleHashPack(), recheck);
      ResolveValues(c, "g:a", [TagValueStr("##g:a"), TagValueStr("g:stone")], {}, {"g:a"}, ResolveState([], {}))
      == if recheck then ({}, ResolveState([], {"g:a"}))
         else ({"g:stone"}, ResolveState([("g:a", {"g:stone"})], {"g:a"}))
  {
    DoubleHashFirstValue(recheck);
    DoubleHashSecondValue(recheck);
  }

  lemma DoubleHashResolved(recheck: bool)
    ensures ResolveTagDefs(DoubleHashPack(), recheck)
      == if recheck then ResolveState([], {"g:a"}) else ResolveState([("g:a", {"g:stone"})], {"g:a"})
  {
    var c := TagCtx(DoubleHashPack(), recheck);
    NormalizePlain();
    DoubleHashContext(recheck);
    DoubleHashValues(recheck);
    assert {} + {"g:a"} == {"g:a"};
    var r := ResolveTag(c, "g:a", {}, ResolveState([], {}));
    assert ResolveAll(c, ["g:a"], ResolveState([], {})) == ResolveAll(c, [], r.1);
  }

  /**
   * As written, the self-reference through `##g:a` invalidates `g:a`, but the check looks for
   * `#g:a` in the invalid set, so `g:a` is also resolved and its items reach the index.
   */
  lemma DoubleHashAsWritten()
    ensures "g:a" in ResolveTagDefs(DoubleHashPack(), false).invalid
    ensures !Disjoint(ResolveTagDefs(DoubleHashPack(), false))
    ensures "g:stone" in GetSet(BuildTagIndexWith(DoubleHashPack(), false).itemIdsByTagId, "g:a")
  {
    DoubleHashResolved(false);
    BuildTagIndexAt(DoubleHashPack(), false, "g:a", "g:stone");
    assert ResolveTagDefs(DoubleHashPack(), false).resolved[0] == ("g:a", {"g:stone"});
  }

  /** With the corrected check, `g:a` is invalid, resolves to nothing and lists no item. */
  lemma DoubleHashCorrected(i: string)
    ensures "g:a" in ResolveTagDefs(DoubleHashPack(), true).invalid
    ensures Disjoint(ResolveTagDefs(DoubleHashPack(), true))
    ensures i !in GetSet(BuildTagIndexWith(DoubleHashPack(), true).itemIdsByTagId, "g:a")
  {
    DoubleHashResolved(true);
    BuildTagIndexAt(DoubleHashPack(), true, "g:a", i);
    assert DoubleHashPack().items[0].tags == [];
    assert !Declares("g", DoubleHashPack().items, "g:a", i);
  }
}
