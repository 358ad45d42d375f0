// The content snapshot the core works on: item keys, stacks, recipes, recipe types, item
// definitions and tag definitions. The repository declares these in src/jei/types, which is
// not part of this model; the shapes below are the ones the modelled code reads.
module PackTypes {
  import opened Wrappers
  import opened JsValues

  /** An item variant discriminator: `meta?: number | string`. */
  datatype Meta = MetaNum(n: JsNumber) | MetaStr(s: string)

  /** `ItemKey`; an `nbt` of `JUndefined` is an absent nbt. */
  datatype ItemKey = ItemKey(id: string, meta: Option<Meta>, nbt: JsValue)

  /** A bare key `{ id }`, as built for a chosen tag candidate. */
  function BareKey(id: string): (k: ItemKey)
    ensures k.id == id && k.meta.None? && k.nbt.JUndefined?
  {
    ItemKey(id, None, JUndefined)
  }

  /** A recipe stack: an item, a fluid or a tag reference, each with an amount. */
  datatype Stack =
    | ItemStack(id: string, meta: Option<Meta>, nbt: JsValue, amount: JsNumber, unit: Option<string>)
    | FluidStack(id: string, amount: JsNumber, unit: Option<string>)
    | TagStack(id: string, amount: JsNumber, unit: Option<string>)

  /** The I/O role a recipe type declares for a slot. */
  datatype Io = Input | Output | Catalyst

  datatype SlotDef = SlotDef(slotId: string, io: Option<Io>)

  /** The crafting station of a recipe type; empty strings count as absent. */
  datatype Machine = Machine(id: Option<string>, name: Option<string>)

  datatype RecipeTypeDef = RecipeTypeDef(key: string, slots: seq<SlotDef>, machine: Option<Machine>)

  /**
   * One entry of `slotContents`, in property order. A single stack is the one-element list
   * that `asArray` makes of it.
   */
  datatype SlotEntry = SlotEntry(slotId: string, stacks: seq<Stack>)

  datatype ItemDef = ItemDef(key: ItemKey, tags: seq<string>)

  datatype Recipe = Recipe(id: string, rtype: string, slotContents: seq<SlotEntry>, inlineItems: seq<ItemDef>)

  /** A tag value: a plain item id or `#tag` reference, or an object `{ id, required }`. */
  datatype TagValue = TagValueStr(s: string) | TagValueObj(id: JsValue, required: JsValue)

  datatype TagDef = TagDef(values: seq<TagValue>)

  /** `pack.tags?.item`: tag definitions in property order. */
  datatype TagEntry = TagEntry(tagId: string, def: TagDef)

  /** The validated snapshot; `gameId` is the manifest's default namespace. */
  datatype PackData = PackData(
    gameId: string,
    items: seq<ItemDef>,
    recipeTypes: seq<RecipeTypeDef>,
    recipes: seq<Recipe>,
    tagDefs: seq<TagEntry>)

  /** A present, non-empty optional string (JavaScript truthiness of `string | undefined`). */
  predicate Present(s: Option<string>) {
    s.Some? && s.value != ""
  }

  /** `tagDefs[tagId]`: the definition of the first entry with that key. */
  function TagDefOf(defs: seq<TagEntry>, tagId: string): (r: Option<TagDef>)
    ensures r.Some? <==> exists i :: 0 <= i < |defs| && defs[i].tagId == tagId
    ensures r.Some? ==> exists i :: 0 <= i < |defs| && defs[i].tagId == tagId && defs[i].def == r.value
  {
    if |defs| == 0 then None
    else if defs[0].tagId == tagId then Some(defs[0].def)
    else
      var r := TagDefOf(defs[1..], tagId);
      assert r.Some? ==> exists i :: 0 <= i < |defs[1..]| && defs[1..][i].tagId == tagId;
      assert forall i :: 0 < i < |defs| ==> defs[i] == defs[1..][i - 1];
      r
  }
}
