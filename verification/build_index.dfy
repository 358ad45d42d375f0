// The content index (src/jei/indexing/buildIndex.ts): lookup maps over the pack, and reverse
// indices from item fingerprints and item ids to the recipes that produce or consume them.
module BuildIndex {
  import opened Wrappers
  import opened Strings
  import opened JsValues
  import opened PackTypes
  import opened Key
  import opened TagResolve
  import opened TagIndexes

  // ---------------------------------------------------------------------------
  // Maps filled by `map.set` in sequence order

  /** `xs.forEach((x) => map.set(key(x), x))`: the last element with a key wins. */
  function IndexByKey<T>(m: map<string, T>, xs: seq<T>, key: T -> string): map<string, T>
    decreases |xs|
  {
    if |xs| == 0 then m else IndexByKey(m[key(xs[0]) := xs[0]], xs[1..], key)
  }

  /**
   * A key is in the filled map when it was there before or some element has it; its entry is
   * then the last element with that key, and otherwise the entry it had before.
   */
  lemma {:induction false} IndexByKeySpec<T>(m: map<string, T>, xs: seq<T>, key: T -> string, k: string)
    ensures var r := IndexByKey(m, xs, key);
      (k in r <==> k in m || exists i :: 0 <= i < |xs| && key(xs[i]) == k)
      && ((exists i :: 0 <= i < |xs| && key(xs[i]) == k) ==>
        exists i :: 0 <= i < |xs| && key(xs[i]) == k && r[k] == xs[i]
          && forall j :: i < j < |xs| ==> key(xs[j]) != k)
      && ((forall i :: 0 <= i < |xs| ==> key(xs[i]) != k) && k in m ==> r[k] == m[k])
    decreases |xs|
  {
    if |xs| > 0 {
      var m1 := m[key(xs[0]) := xs[0]];
      IndexByKeySpec(m1, xs[1..], key, k);
      var r := IndexByKey(m, xs, key);
      assert r == IndexByKey(m1, xs[1..], key);
      if exists i :: 0 <= i < |xs[1..]| && key(xs[1..][i]) == k {
        var i :| 0 <= i < |xs[1..]| && key(xs[1..][i]) == k && r[k] == xs[1..][i]
          && forall j :: i < j < |xs[1..]| ==> key(xs[1..][j]) != k;
        assert key(xs[i + 1]) == k && r[k] == xs[i + 1];
        forall j | i + 1 < j < |xs| ensures key(xs[j]) != k {
          assert xs[j] == xs[1..][j - 1];
        }
      } else {
        forall j | 0 < j < |xs| ensures key(xs[j]) != k {
          assert xs[j] == xs[1..][j - 1];
        }
        if key(xs[0]) == k {
          assert r[k] == xs[0];
        }
      }
    }
  }

  // ---------------------------------------------------------------------------
  // Slot roles

  /** `slotIoFallback(slotId)`: an undeclared slot is an output when its name says so. */
  function SlotIoFallback(slotId: string): (r: Io)
    ensures r != Catalyst
    ensures r == Output <==> StartsWith(Lower(slotId), "out") || Contains(Lower(slotId), "output")
  {
    var id := Lower(slotId);
    if StartsWith(id, "out") || Contains(id, "output") then Output else Input
  }

  function SlotKey(s: SlotDef): string {
    s.slotId
  }

  /** `collectSlotDefsById(typeDef)` */
  function SlotDefsById(rt: Option<RecipeTypeDef>): map<string, SlotDef> {
    if rt.None? then map[] else IndexByKey(map[], rt.value.slots, SlotKey)
  }

  /** `def?.io ?? slotIoFallback(slotId)` */
  function SlotIo(rt: Option<RecipeTypeDef>, slotId: string): Io {
    var defs := SlotDefsById(rt);
    if slotId in defs && defs[slotId].io.Some? then defs[slotId].io.value else SlotIoFallback(slotId)
  }

  /**
   * A slot's role is the io of the last slot definition with its id when that definition
   * declares one, and the name fallback otherwise (no definition, or one without io).
   */
  lemma SlotIoSpec(rt: RecipeTypeDef, slotId: string)
    ensures (exists i :: 0 <= i < |rt.slots| && rt.slots[i].slotId == slotId) ==>
      exists i :: 0 <= i < |rt.slots| && rt.slots[i].slotId == slotId
        && (forall j :: i < j < |rt.slots| ==> rt.slots[j].slotId != slotId)
        && SlotIo(Some(rt), slotId) == (if rt.slots[i].io.Some? then rt.slots[i].io.value else SlotIoFallback(slotId))
    ensures (forall i :: 0 <= i < |rt.slots| ==> rt.slots[i].slotId != slotId) ==>
      SlotIo(Some(rt), slotId) == SlotIoFallback(slotId)
  {
    IndexByKeySpec(map[], rt.slots, SlotKey, slotId);
  }

  // ---------------------------------------------------------------------------
  // The four reverse indices

  datatype Direction = Producing | Consuming

  /** Output slots feed the producing maps; input and catalyst slots feed the consuming ones. */
  function DirectionOf(io: Io): (d: Direction)
    ensures d == Producing <==> io == Output
  {
    if io == Output then Producing else Consuming
  }

  /** `producingByKeyHash`, `consumingByKeyHash`, `producingByItemId`, `consumingByItemId`. */
  datatype RecipeMaps = RecipeMaps(
    producingByKeyHash: map<string, seq<string>>,
    consumingByKeyHash: map<string, seq<string>>,
    producingByItemId: map<string, seq<string>>,
    consumingByItemId: map<string, seq<string>>)

  /** Names one of the four maps: its direction and whether it is keyed by fingerprint. */
  datatype MapSel = MapSel(dir: Direction, exact: bool)

  function Sel(ix: RecipeMaps, sel: MapSel): map<string, seq<string>> {
    match sel
    case MapSel(Producing, true) => ix.producingByKeyHash
    case MapSel(Consuming, true) => ix.consumingByKeyHash
    case MapSel(Producing, false) => ix.producingByItemId
    case MapSel(Consuming, false) => ix.consumingByItemId
  }

  function ListAt(m: map<string, seq<string>>, k: string): seq<string> {
    if k in m then m[k] else []
  }

  /** `addToMapArray(map, key, recipeId)` on the selected map. */
  function AddToMapArray(ix: RecipeMaps, sel: MapSel, k: string, recipeId: string): (r: RecipeMaps)
    ensures forall s, k' :: ListAt(Sel(r, s), k') == ListAt(Sel(ix, s), k') + (if s == sel && k' == k then [recipeId] else [])
  {
    var m := Sel(ix, sel)[k := ListAt(Sel(ix, sel), k) + [recipeId]];
    match sel
    case MapSel(Producing, true) => ix.(producingByKeyHash := m)
    case MapSel(Consuming, true) => ix.(consumingByKeyHash := m)
    case MapSel(Producing, false) => ix.(producingByItemId := m)
    case MapSel(Consuming, false) => ix.(consumingByItemId := m)
  }

  /**
   * Stack `s`, met in a slot of direction `dir`, is listed in map `sel` under key `k`: it is an
   * item stack of that direction, and either exact and fingerprinted `k` (exact maps) or bare
   * with id `k` (id maps).
   */
  predicate Contributes(s: Stack, dir: Direction, sel: MapSel, k: string) {
    s.ItemStack? && sel.dir == dir &&
    var key := StackItemToItemKey(s);
    if sel.exact then IsExactItemKey(key) && ItemKeyHash(key) == k else !IsExactItemKey(key) && key.id == k
  }

  /** `indexItemStack(stack, recipeId, direction, index)` */
  function IndexItemStack(s: Stack, recipeId: string, dir: Direction, ix: RecipeMaps): (r: RecipeMaps)
    requires s.ItemStack?
    ensures forall sel, k :: ListAt(Sel(r, sel), k) == ListAt(Sel(ix, sel), k) + (if Contributes(s, dir, sel, k) then [recipeId] else [])
  {
    var key := StackItemToItemKey(s);
    if IsExactItemKey(key) then AddToMapArray(ix, MapSel(dir, true), ItemKeyHash(key), recipeId)
    else AddToMapArray(ix, MapSel(dir, false), key.id, recipeId)
  }

  /** `stacks.forEach(...)`: fluid and tag stacks are skipped. */
  function IndexStacks(stacks: seq<Stack>, recipeId: string, dir: Direction, ix: RecipeMaps): RecipeMaps
    decreases |stacks|
  {
    if |stacks| == 0 then ix
    else
      var ix1 := if stacks[0].ItemStack? then IndexItemStack(stacks[0], recipeId, dir, ix) else ix;
      IndexStacks(stacks[1..], recipeId, dir, ix1)
  }

  /** The loop over `Object.keys(recipe.slotContents)` of `indexRecipe`. */
  function IndexSlots(entries: seq<SlotEntry>, rt: Option<RecipeTypeDef>, recipeId: string, ix: RecipeMaps): RecipeMaps
    decreases |entries|
  {
    if |entries| == 0 then ix
    else
      var dir := DirectionOf(SlotIo(rt, entries[0].slotId));
      IndexSlots(entries[1..], rt, recipeId, IndexStacks(entries[0].stacks, recipeId, dir, ix))
  }

  /** `indexRecipe(recipe, recipeType, index)` */
  function IndexRecipe(recipe: Recipe, rt: Option<RecipeTypeDef>, ix: RecipeMaps): RecipeMaps {
    IndexSlots(recipe.slotContents, rt, recipe.id, ix)
  }

  function Lookup<T>(m: map<string, T>, k: string): Option<T> {
    if k in m then Some(m[k]) else None
  }

  /** `pack.recipes.forEach((r) => indexRecipe(r, recipeTypesByKey.get(r.type), ...))` */
  function IndexRecipes(recipes: seq<Recipe>, types: map<string, RecipeTypeDef>, ix: RecipeMaps): RecipeMaps
    decreases |recipes|
  {
    if |recipes| == 0 then ix
    else IndexRecipes(recipes[1..], types, IndexRecipe(recipes[0], Lookup(types, recipes[0].rtype), ix))
  }

  // ---------------------------------------------------------------------------
  // The index

  datatype JeiIndex = JeiIndex(
    itemsByKeyHash: map<string, ItemDef>,
    itemKeyHashesByItemId: map<string, seq<string>>,
    recipeTypesByKey: map<string, RecipeTypeDef>,
    recipesById: map<string, Recipe>,
    recipeMaps: RecipeMaps,
    tags: TagIndex)

  function ItemHash(it: ItemDef): string {
    ItemKeyHash(it.key)
  }

  function RecipeTypeKey(rt: RecipeTypeDef): string {
    rt.key
  }

  function RecipeId(r: Recipe): string {
    r.id
  }

  /** `itemKeyHashesByItemId`: each item's fingerprint appended to the list of its id. */
  function AddItemHashes(m: map<string, seq<string>>, items: seq<ItemDef>): map<string, seq<string>>
    decreases |items|
  {
    if |items| == 0 then m
    else
      var id := items[0].key.id;
      AddItemHashes(m[id := ListAt(m, id) + [ItemHash(items[0])]], items[1..])
  }

  /** Reference definition: the fingerprints of the items with id `id`, in pack order. */
  function HashesOf(items: seq<ItemDef>, id: string): seq<string>
    decreases |items|
  {
    if |items| == 0 then []
    else (if items[0].key.id == id then [ItemHash(items[0])] else []) + HashesOf(items[1..], id)
  }

  /** `buildJeiIndex(pack)`; the two loops over `pack.items` are independent and are written apart. */
  function BuildJeiIndex(pack: PackData): JeiIndex {
    var types := IndexByKey(map[], pack.recipeTypes, RecipeTypeKey);
    JeiIndex(
      IndexByKey(map[], pack.items, ItemHash),
      AddItemHashes(map[], pack.items),
      types,
      IndexByKey(map[], pack.recipes, RecipeId),
      IndexRecipes(pack.recipes, types, RecipeMaps(map[], map[], map[], map[])),
      CorrectedTagIndex(pack))
  }

  /** The distinct recipe ids listed under the key's fingerprint or under its bare id. */
  function RecipesFor(idx: JeiIndex, key: ItemKey, dir: Direction): set<string> {
    var exact := ListAt(Sel(idx.recipeMaps, MapSel(dir, true)), ItemKeyHash(key));
    var byId := ListAt(Sel(idx.recipeMaps, MapSel(dir, false)), key.id);
    (set i | 0 <= i < |exact| :: exact[i]) + (set i | 0 <= i < |byId| :: byId[i])
  }

  /** `recipesProducingItem(index, itemKey)`, as the set of its (duplicate-free) entries. */
  function RecipesProducingItem(idx: JeiIndex, key: ItemKey): set<string> {
    RecipesFor(idx, key, Producing)
  }

  /** `recipesConsumingItem(index, itemKey)`, as the set of its (duplicate-free) entries. */
  function RecipesConsumingItem(idx: JeiIndex, key: ItemKey): set<string> {
    RecipesFor(idx, key, Consuming)
  }
}
