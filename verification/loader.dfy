// Merging the catalog's item definitions with the items recipes declare inline
// (src/jei/pack/loader.ts): one definition per item hash.
module Loader {
  import opened Wrappers
  import opened PackTypes
  import opened Key
  import opened OrderedMaps

  /** The loader's own `itemKeyHash(def)`, written out independently of the key module's. */
  function DefHash(def: ItemDef): (r: string)
    ensures r == ItemKeyHash(def.key)
  {
    def.key.id + "::" + MetaText(def.key.meta) + "::" + CanonicalText(NbtOrNull(def.key.nbt))
  }

  /** `items.forEach((it) => byHash.set(itemKeyHash(it), it))`, as the set of the last item after the others. */
  function SetAll(m: seq<Entry<ItemDef>>, items: seq<ItemDef>): seq<Entry<ItemDef>>
    decreases |items|
  {
    if |items| == 0 then m
    else
      var last := items[|items| - 1];
      Put(SetAll(m, items[..|items| - 1]), DefHash(last), last)
  }

  /** The inline items of each recipe, recipe after recipe: the order the nested `forEach` visits them. */
  function InlineItems(recipes: seq<Recipe>): seq<ItemDef> {
    if |recipes| == 0 then [] else recipes[0].inlineItems + InlineItems(recipes[1..])
  }

  /** `if (!byHash.has(key)) byHash.set(key, it)` over a list of items. */
  function SetMissing(m: seq<Entry<ItemDef>>, items: seq<ItemDef>): seq<Entry<ItemDef>>
    decreases |items|
  {
    if |items| == 0 then m
    else
      var it := items[0];
      var key := DefHash(it);
      SetMissing(if !Has(m, key) then Put(m, key, it) else m, items[1..])
  }

  /** `mergeInlineItems(items, recipes)` */
  function MergeInlineItems(items: seq<ItemDef>, recipes: seq<Recipe>): seq<ItemDef> {
    Values(SetMissing(SetAll([], items), InlineItems(recipes)))
  }

  // ---------------------------------------------------------------------------
  // Reference definitions

  /** Some item of the list has hash `h`. */
  predicate HashIn(items: seq<ItemDef>, h: string) {
    exists i :: 0 <= i < |items| && DefHash(items[i]) == h
  }

  /** The last item of the list with hash `h`. */
  function LastWith(items: seq<ItemDef>, h: string): (r: Option<ItemDef>)
    ensures r.Some? <==> HashIn(items, h)
    ensures r.Some? ==> r.value in items && DefHash(r.value) == h
    decreases |items|
  {
    if |items| == 0 then None
    else if DefHash(items[|items| - 1]) == h then Some(items[|items| - 1])
    else
      var r := LastWith(items[..|items| - 1], h);
      assert forall i :: 0 <= i < |items| - 1 ==> items[..|items| - 1][i] == items[i];
      r
  }

  /** The first item of the list with hash `h`. */
  function FirstWith(items: seq<ItemDef>, h: string): (r: Option<ItemDef>)
    ensures r.Some? <==> HashIn(items, h)
    ensures r.Some? ==> r.value in items && DefHash(r.value) == h
    decreases |items|
  {
    if |items| == 0 then None
    else if DefHash(items[0]) == h then Some(items[0])
    else
      var r := FirstWith(items[1..], h);
      assert forall i :: 0 < i < |items| ==> items[1..][i - 1] == items[i];
      r
  }

  /** Every entry is filed under its own item's hash. */
  predicate Filed(m: seq<Entry<ItemDef>>) {
    DistinctKeys(m) && forall i :: 0 <= i < |m| ==> m[i].k == DefHash(m[i].v)
  }

  // ---------------------------------------------------------------------------
  // Properties

  lemma PutFiled(m: seq<Entry<ItemDef>>, it: ItemDef)
    requires Filed(m)
    ensures Filed(Put(m, DefHash(it), it))
  {
    PutDistinct(m, DefHash(it), it);
    PutKeeps(m, DefHash(it), it, (e: Entry<ItemDef>) => e.k == DefHash(e.v));
  }

  /** Setting every catalog item: a hash maps to the last catalog item with it, or to what it had before. */
  lemma {:induction false} SetAllGet(m: seq<Entry<ItemDef>>, items: seq<ItemDef>, h: string)
    ensures Get(SetAll(m, items), h) == if LastWith(items, h).Some? then LastWith(items, h) else Get(m, h)
    decreases |items|
  {
    if |items| > 0 {
      var last := items[|items| - 1];
      SetAllGet(m, items[..|items| - 1], h);
      PutGet(SetAll(m, items[..|items| - 1]), DefHash(last), last, h);
    }
  }

  lemma {:induction false} SetAllFiled(m: seq<Entry<ItemDef>>, items: seq<ItemDef>)
    requires Filed(m)
    ensures Filed(SetAll(m, items))
    decreases |items|
  {
    if |items| > 0 {
      SetAllFiled(m, items[..|items| - 1]);
      PutFiled(SetAll(m, items[..|items| - 1]), items[|items| - 1]);
    }
  }

  /** Adding missing items: a hash already present keeps its item, a new one takes the first item with it. */
  lemma {:induction false} SetMissingGet(m: seq<Entry<ItemDef>>, items: seq<ItemDef>, h: string)
    ensures Get(SetMissing(m, items), h) == if Get(m, h).Some? then Get(m, h) else FirstWith(items, h)
    decreases |items|
  {
    if |items| > 0 {
      var it := items[0];
      var key := DefHash(it);
      var m1 := if !Has(m, key) then Put(m, key, it) else m;
      SetMissingGet(m1, items[1..], h);
      if !Has(m, key) {
        PutGet(m, key, it, h);
      }
    }
  }

  lemma {:induction false} SetMissingFiled(m: seq<Entry<ItemDef>>, items: seq<ItemDef>)
    requires Filed(m)
    ensures Filed(SetMissing(m, items))
    decreases |items|
  {
    if |items| > 0 {
      var it := items[0];
      var m1 := if !Has(m, DefHash(it)) then Put(m, DefHash(it), it) else m;
      if !Has(m, DefHash(it)) {
        PutFiled(m, it);
      }
      SetMissingFiled(m1, items[1..]);
    }
  }

  /**
   * The merged map: the catalog decides every hash it has, by its last item with that hash;
   * any other hash goes to the first inline item with it.
   */
  lemma MergedGet(items: seq<ItemDef>, recipes: seq<Recipe>, h: string)
    ensures Get(SetMissing(SetAll([], items), InlineItems(recipes)), h)
         == if LastWith(items, h).Some? then LastWith(items, h) else FirstWith(InlineItems(recipes), h)
  {
    SetAllGet([], items, h);
    SetMissingGet(SetAll([], items), InlineItems(recipes), h);
  }

  /** `mergeInlineItems` gives at most one item per hash. */
  lemma MergeInlineItemsDistinct(items: seq<ItemDef>, recipes: seq<Recipe>)
    ensures var r := MergeInlineItems(items, recipes);
      forall i, j :: 0 <= i < j < |r| ==> DefHash(r[i]) != DefHash(r[j])
  {
    var m := SetMissing(SetAll([], items), InlineItems(recipes));
    SetAllFiled([], items);
    SetMissingFiled(SetAll([], items), InlineItems(recipes));
    assert forall i :: 0 <= i < |m| ==> m[i].k == DefHash(m[i].v);
  }

  /**
   * The item kept for a hash is the last catalog item with it, or, when the catalog has none,
   * the first inline item with it: an inline item never replaces a catalog item or an earlier
   * inline item.
   */
  lemma MergeInlineItemsChoice(items: seq<ItemDef>, recipes: seq<Recipe>, i: nat)
    requires i < |MergeInlineItems(items, recipes)|
    ensures var r := MergeInlineItems(items, recipes);
      Some(r[i]) == if LastWith(items, DefHash(r[i])).Some? then LastWith(items, DefHash(r[i]))
                    else FirstWith(InlineItems(recipes), DefHash(r[i]))
  {
    var m := SetMissing(SetAll([], items), InlineItems(recipes));
    SetAllFiled([], items);
    SetMissingFiled(SetAll([], items), InlineItems(recipes));
    GetAt(m, i);
    MergedGet(items, recipes, m[i].k);
  }

  /** In a map filed by hash, the values have hash `h` exactly when the map has key `h`. */
  lemma FiledHas(m: seq<Entry<ItemDef>>, h: string)
    requires Filed(m)
    ensures HashIn(Values(m), h) <==> Has(m, h)
  {
    var r := Values(m);
    HasAt(m, h);
    if HashIn(r, h) {
      var i :| 0 <= i < |r| && DefHash(r[i]) == h;
      assert m[i].k == h;
    }
    if Has(m, h) {
      var i :| 0 <= i < |m| && m[i].k == h;
      assert DefHash(r[i]) == h;
    }
  }

  /** Every hash of a catalog item or an inline item has an item in the result, and no other hash does. */
  lemma MergeInlineItemsCovers(items: seq<ItemDef>, recipes: seq<Recipe>, h: string)
    ensures var r := MergeInlineItems(items, recipes);
      HashIn(r, h) <==> HashIn(items, h) || HashIn(InlineItems(recipes), h)
  {
    SetAllFiled([], items);
    SetMissingFiled(SetAll([], items), InlineItems(recipes));
    MergedGet(items, recipes, h);
    FiledHas(SetMissing(SetAll([], items), InlineItems(recipes)), h);
  }
}
