// What the content index guarantees: which recipes the producing/consuming queries return,
// exactly, and the shape of the per-id fingerprint lists.
module BuildIndexProps {
  import opened Wrappers
  import opened PackTypes
  import opened Key
  import opened BuildIndex
  import opened TagResolve
  import opened TagResolveProps
  import opened TagIndexes

  // ---------------------------------------------------------------------------
  // Item maps

  lemma {:induction false} AddItemHashesSpec(m: map<string, seq<string>>, items: seq<ItemDef>, id: string)
    ensures ListAt(AddItemHashes(m, items), id) == ListAt(m, id) + HashesOf(items, id)
    decreases |items|
  {
    if |items| > 0 {
      var id0 := items[0].key.id;
      var m1 := m[id0 := ListAt(m, id0) + [ItemHash(items[0])]];
      AddItemHashesSpec(m1, items[1..], id);
      assert ListAt(m1, id) == ListAt(m, id) + (if id0 == id then [ItemHash(items[0])] else []);
    }
  }

  /** `itemKeyHashesByItemId[id]` lists the fingerprint of every pack item with that id, in pack order. */
  lemma ItemKeyHashesInPackOrder(pack: PackData, id: string)
    ensures ListAt(BuildJeiIndex(pack).itemKeyHashesByItemId, id) == HashesOf(pack.items, id)
  {
    AddItemHashesSpec(map[], pack.items, id);
  }

  lemma {:induction false} HashesOfSpec(items: seq<ItemDef>, id: string, h: string)
    ensures h in HashesOf(items, id) <==> exists k :: 0 <= k < |items| && items[k].key.id == id && ItemHash(items[k]) == h
    decreases |items|
  {
    if |items| > 0 {
      HashesOfSpec(items[1..], id, h);
      if exists k :: 0 <= k < |items| && items[k].key.id == id && ItemHash(items[k]) == h {
        var k :| 0 <= k < |items| && items[k].key.id == id && ItemHash(items[k]) == h;
        if k > 0 {
          assert items[1..][k - 1] == items[k];
        }
      }
      if exists k :: 0 <= k < |items[1..]| && items[1..][k].key.id == id && ItemHash(items[1..][k]) == h {
        var k :| 0 <= k < |items[1..]| && items[1..][k].key.id == id && ItemHash(items[1..][k]) == h;
        assert items[1..][k] == items[k + 1];
      }
    }
  }

  /**
   * `itemsByKeyHash` holds exactly the fingerprints of the pack's items, each mapped to the
   * last item with that fingerprint.
   */
  lemma ItemsByKeyHashSpec(pack: PackData, h: string)
    ensures var m := BuildJeiIndex(pack).itemsByKeyHash;
      (h in m <==> exists k :: 0 <= k < |pack.items| && ItemHash(pack.items[k]) == h)
      && (h in m ==> exists k ::
        0 <= k < |pack.items| && ItemHash(pack.items[k]) == h && m[h] == pack.items[k]
        && forall j :: k < j < |pack.items| ==> ItemHash(pack.items[j]) != h)
  {
    IndexByKeySpec(map[], pack.items, ItemHash, h);
  }

  /** `recipesById` maps each recipe id to the last recipe with that id. */
  lemma RecipesByIdSpec(pack: PackData, id: string)
    ensures var m := BuildJeiIndex(pack).recipesById;
      (id in m <==> exists k :: 0 <= k < |pack.recipes| && pack.recipes[k].id == id)
      && (id in m ==> exists k ::
        0 <= k < |pack.recipes| && pack.recipes[k] == m[id]
        && forall j :: k < j < |pack.recipes| ==> pack.recipes[j].id != id)
  {
    IndexByKeySpec(map[], pack.recipes, RecipeId, id);
  }

  // ---------------------------------------------------------------------------
  // Reverse indices

  predicate StacksContribute(stacks: seq<Stack>, dir: Direction, sel: MapSel, k: string) {
    exists j :: 0 <= j < |stacks| && Contributes(stacks[j], dir, sel, k)
  }

  /** Some stack of some slot, in that slot's direction, is listed in `sel` under `k`. */
  predicate SlotsContribute(entries: seq<SlotEntry>, rt: Option<RecipeTypeDef>, sel: MapSel, k: string) {
    exists e :: 0 <= e < |entries| && StacksContribute(entries[e].stacks, DirectionOf(SlotIo(rt, entries[e].slotId)), sel, k)
  }

  /** Some recipe with id `id` contributes to `sel` under `k`. */
  predicate Listed(recipes: seq<Recipe>, types: map<string, RecipeTypeDef>, sel: MapSel, k: string, id: string) {
    exists r :: 0 <= r < |recipes| && recipes[r].id == id && SlotsContribute(recipes[r].slotContents, Lookup(types, recipes[r].rtype), sel, k)
  }

  lemma StacksContributeCons(stacks: seq<Stack>, dir: Direction, sel: MapSel, k: string)
    requires |stacks| > 0
    ensures StacksContribute(stacks, dir, sel, k) <==> Contributes(stacks[0], dir, sel, k) || StacksContribute(stacks[1..], dir, sel, k)
  {
    if StacksContribute(stacks, dir, sel, k) {
      var j :| 0 <= j < |stacks| && Contributes(stacks[j], dir, sel, k);
      if j > 0 {
        assert stacks[1..][j - 1] == stacks[j];
      }
    }
    if StacksContribute(stacks[1..], dir, sel, k) {
      var j :| 0 <= j < |stacks[1..]| && Contributes(stacks[1..][j], dir, sel, k);
      assert stacks[1..][j] == stacks[j + 1];
    }
  }

  lemma IndexOneStackAt(s: Stack, recipeId: string, dir: Direction, ix: RecipeMaps, sel: MapSel, k: string, id: string)
    ensures var ix1 := if s.ItemStack? then IndexItemStack(s, recipeId, dir, ix) else ix;
      id in ListAt(Sel(ix1, sel), k) <==> id in ListAt(Sel(ix, sel), k) || (id == recipeId && Contributes(s, dir, sel, k))
  {
  }

  lemma {:induction false} IndexStacksAt(stacks: seq<Stack>, recipeId: string, dir: Direction, ix: RecipeMaps, sel: MapSel, k: string, id: string)
    ensures id in ListAt(Sel(IndexStacks(stacks, recipeId, dir, ix), sel), k) <==>
      id in ListAt(Sel(ix, sel), k) || (id == recipeId && StacksContribute(stacks, dir, sel, k))
    decreases |stacks|
  {
    if |stacks| > 0 {
      var ix1 := if stacks[0].ItemStack? then IndexItemStack(stacks[0], recipeId, dir, ix) else ix;
      IndexOneStackAt(stacks[0], recipeId, dir, ix, sel, k, id);
      IndexStacksAt(stacks[1..], recipeId, dir, ix1, sel, k, id);
      StacksContributeCons(stacks, dir, sel, k);
    }
  }

  lemma SlotsContributeCons(entries: seq<SlotEntry>, rt: Option<RecipeTypeDef>, sel: MapSel, k: string)
    requires |entries| > 0
    ensures SlotsContribute(entries, rt, sel, k) <==>
      StacksContribute(entries[0].stacks, DirectionOf(SlotIo(rt, entries[0].slotId)), sel, k) || SlotsContribute(entries[1..], rt, sel, k)
  {
    if SlotsContribute(entries, rt, sel, k) {
      var e :| 0 <= e < |entries| && StacksContribute(entries[e].stacks, DirectionOf(SlotIo(rt, entries[e].slotId)), sel, k);
      if e > 0 {
        assert entries[1..][e - 1] == entries[e];
      }
    }
    if SlotsContribute(entries[1..], rt, sel, k) {
      var e :| 0 <= e < |entries[1..]| && StacksContribute(entries[1..][e].stacks, DirectionOf(SlotIo(rt, entries[1..][e].slotId)), sel, k);
      assert entries[1..][e] == entries[e + 1];
    }
  }

  lemma {:induction false} IndexSlotsAt(entries: seq<SlotEntry>, rt: Option<RecipeTypeDef>, recipeId: string, ix: RecipeMaps, sel: MapSel, k: string, id: string)
    ensures id in ListAt(Sel(IndexSlots(entries, rt, recipeId, ix), sel), k) <==>
      id in ListAt(Sel(ix, sel), k) || (id == recipeId && SlotsContribute(entries, rt, sel, k))
    decreases |entries|
  {
    if |entries| > 0 {
      var dir := DirectionOf(SlotIo(rt, entries[0].slotId));
      IndexStacksAt(entries[0].stacks, recipeId, dir, ix, sel, k, id);
      IndexSlotsAt(entries[1..], rt, recipeId, IndexStacks(entries[0].stacks, recipeId, dir, ix), sel, k, id);
      SlotsContributeCons(entries, rt, sel, k);
    }
  }

  lemma ListedCons(recipes: seq<Recipe>, types: map<string, RecipeTypeDef>, sel: MapSel, k: string, id: string)
    requires |recipes| > 0
    ensures Listed(recipes, types, sel, k, id) <==>
      (recipes[0].id == id && SlotsContribute(recipes[0].slotContents, Lookup(types, recipes[0].rtype), sel, k))
      || Listed(recipes[1..], types, sel, k, id)
  {
    if Listed(recipes, types, sel, k, id) {
      var r :| 0 <= r < |recipes| && recipes[r].id == id && SlotsContribute(recipes[r].slotContents, Lookup(types, recipes[r].rtype), sel, k);
      if r > 0 {
        assert recipes[1..][r - 1] == recipes[r];
      }
    }
    if Listed(recipes[1..], types, sel, k, id) {
      var r :| 0 <= r < |recipes[1..]| && recipes[1..][r].id == id
        && SlotsContribute(recipes[1..][r].slotContents, Lookup(types, recipes[1..][r].rtype), sel, k);
      assert recipes[1..][r] == recipes[r + 1];
    }
  }

  lemma {:induction false} IndexRecipesAt(recipes: seq<Recipe>, types: map<string, RecipeTypeDef>, ix: RecipeMaps, sel: MapSel, k: string, id: string)
    ensures id in ListAt(Sel(IndexRecipes(recipes, types, ix), sel), k) <==>
      id in ListAt(Sel(ix, sel), k) || Listed(recipes, types, sel, k, id)
    decreases |recipes|
  {
    if |recipes| > 0 {
      var r0 := recipes[0];
      var rt := Lookup(types, r0.rtype);
      IndexSlotsAt(r0.slotContents, rt, r0.id, ix, sel, k, id);
      IndexRecipesAt(recipes[1..], types, IndexRecipe(r0, rt, ix), sel, k, id);
      ListedCons(recipes, types, sel, k, id);
    }
  }

  function RecipeTypesOf(pack: PackData): map<string, RecipeTypeDef> {
    IndexByKey(map[], pack.recipeTypes, RecipeTypeKey)
  }

  lemma ListAtMember(l: seq<string>, id: string)
    ensures id in (set i | 0 <= i < |l| :: l[i]) <==> id in l
  {
    if id in l {
      var i :| 0 <= i < |l| && l[i] == id;
    }
  }

  /**
   * The producing (consuming) query for `key` returns exactly the ids of recipes with an item
   * stack in an output (input or catalyst) slot that is either exact with the key's fingerprint
   * or bare with the key's id.
   */
  lemma RecipesForSpec(pack: PackData, key: ItemKey, dir: Direction, id: string)
    ensures id in RecipesFor(BuildJeiIndex(pack), key, dir) <==>
      Listed(pack.recipes, RecipeTypesOf(pack), MapSel(dir, true), ItemKeyHash(key), id)
      || Listed(pack.recipes, RecipeTypesOf(pack), MapSel(dir, false), key.id, id)
  {
    var empty := RecipeMaps(map[], map[], map[], map[]);
    var rm := BuildJeiIndex(pack).recipeMaps;
    IndexRecipesAt(pack.recipes, RecipeTypesOf(pack), empty, MapSel(dir, true), ItemKeyHash(key), id);
    IndexRecipesAt(pack.recipes, RecipeTypesOf(pack), empty, MapSel(dir, false), key.id, id);
    ListAtMember(ListAt(Sel(rm, MapSel(dir, true)), ItemKeyHash(key)), id);
    ListAtMember(ListAt(Sel(rm, MapSel(dir, false)), key.id), id);
  }

  /**
   * Completeness: an item stack in a slot of recipe `r` makes `r` show up in the query for the
   * stack's own key, in the slot's direction.
   */
  lemma QueryComplete(pack: PackData, r: nat, e: nat, j: nat)
    requires r < |pack.recipes| && e < |pack.recipes[r].slotContents| && j < |pack.recipes[r].slotContents[e].stacks|
    requires pack.recipes[r].slotContents[e].stacks[j].ItemStack?
    ensures var recipe := pack.recipes[r];
      var s := recipe.slotContents[e].stacks[j];
      var dir := DirectionOf(SlotIo(Lookup(RecipeTypesOf(pack), recipe.rtype), recipe.slotContents[e].slotId));
      recipe.id in RecipesFor(BuildJeiIndex(pack), StackItemToItemKey(s), dir)
  {
    var recipe := pack.recipes[r];
    var s := recipe.slotContents[e].stacks[j];
    var rt := Lookup(RecipeTypesOf(pack), recipe.rtype);
    var dir := DirectionOf(SlotIo(rt, recipe.slotContents[e].slotId));
    var key := StackItemToItemKey(s);
    var sel := MapSel(dir, IsExactItemKey(key));
    var k := if IsExactItemKey(key) then ItemKeyHash(key) else key.id;
    assert Contributes(s, dir, sel, k);
    assert StacksContribute(recipe.slotContents[e].stacks, dir, sel, k);
    assert SlotsContribute(recipe.slotContents, rt, sel, k);
    assert Listed(pack.recipes, RecipeTypesOf(pack), sel, k, recipe.id);
    RecipesForSpec(pack, key, dir, recipe.id);
  }

  /** A list of fluid and tag stacks leaves the reverse indices unchanged. */
  lemma {:induction false} NonItemStacksIgnored(stacks: seq<Stack>, recipeId: string, dir: Direction, ix: RecipeMaps)
    requires forall j :: 0 <= j < |stacks| ==> !stacks[j].ItemStack?
    ensures IndexStacks(stacks, recipeId, dir, ix) == ix
    decreases |stacks|
  {
    if |stacks| > 0 {
      NonItemStacksIgnored(stacks[1..], recipeId, dir, ix);
    }
  }

  /** An exact item stack is listed only under its fingerprint, a bare one only under its id. */
  lemma ExactOrWildcard(s: Stack, dir: Direction, k: string)
    requires s.ItemStack?
    ensures IsExactItemKey(StackItemToItemKey(s)) ==> !Contributes(s, dir, MapSel(dir, false), k)
    ensures !IsExactItemKey(StackItemToItemKey(s)) ==> !Contributes(s, dir, MapSel(dir, true), k)
    ensures Contributes(s, dir, MapSel(dir, true), k) || Contributes(s, dir, MapSel(dir, false), k) <==>
      k == (if IsExactItemKey(StackItemToItemKey(s)) then ItemKeyHash(StackItemToItemKey(s)) else s.id)
  {
  }

  /**
   * `buildJeiIndex(pack)` at one item id, fingerprint, recipe id and query: the per-id
   * fingerprint list is in pack order, the fingerprint and recipe maps hold exactly the pack's
   * keys, the producing (consuming) query is exact, and the tag index is the corrected one, whose
   * two maps are inverses.
   */
  lemma BuildJeiIndexSpec(pack: PackData, key: ItemKey, dir: Direction, h: string, recipeId: string)
    ensures var r := BuildJeiIndex(pack);
      && ListAt(r.itemKeyHashesByItemId, key.id) == HashesOf(pack.items, key.id)
      && (h in r.itemsByKeyHash <==> exists k :: 0 <= k < |pack.items| && ItemHash(pack.items[k]) == h)
      && (recipeId in r.recipesById <==> exists k :: 0 <= k < |pack.recipes| && pack.recipes[k].id == recipeId)
      && (recipeId in RecipesFor(r, key, dir) <==>
            Listed(pack.recipes, RecipeTypesOf(pack), MapSel(dir, true), ItemKeyHash(key), recipeId)
            || Listed(pack.recipes, RecipeTypesOf(pack), MapSel(dir, false), key.id, recipeId))
      && r.tags == CorrectedTagIndex(pack) && Inverse(r.tags)
  {
    ItemKeyHashesInPackOrder(pack, key.id);
    ItemsByKeyHashSpec(pack, h);
    RecipesByIdSpec(pack, recipeId);
    RecipesForSpec(pack, key, dir, recipeId);
  }
}
