# JEI web viewer core, in Dafny

This project models the data core of a browser-based "Just Enough Items" viewer. The viewer
loads a pack of Minecraft item definitions, recipe types, recipes and tags, indexes it, and
plans production chains. The model covers these parts of the program:

- **Item fingerprints** (`Key`, key.ts). `itemKeyHash` is `id::meta::canonical-nbt`.
  `stackItemToItemKey` copies only the fields that are defined.
- **Canonical JSON** (`StableJson`, `StableJsonProps`, stableJson.ts). `stabilize` re-inserts
  every object's keys in sorted order, drops undefined fields and the `__proto__` key, and turns
  bigint, symbol and function values into strings. `JSON.stringify` is modelled on top of it.
- **Tag resolution** (`TagResolve`, `TagResolveProps`, `TagMemo`, `TagSettle`,
  `TagIndexes`, resolve.ts). Tag ids are normalised.
  Tag definitions are resolved recursively, with a memo, an invalid set and a visiting path.
  The result is the two inverse maps of the tag index. A memoised tag holds the known items
  it lists plus the sets of the tags it references, and a tag on a reference cycle, or one
  reaching an undefined or invalid tag, ends invalid. `TagIndexes` gives the index both as
  written and with the `#` reference check corrected (see the findings).
- **The JEI index** (`BuildIndex`, `BuildIndexProps`, buildIndex.ts). It builds the item and
  recipe lookups and the producing and consuming reverse indices, split into exact and
  wildcard maps. It also answers the producing and consuming queries.
- **The planner** (`Planner`, `PlannerProps`, `PlannerTree`, `PlannerCycle`, planner.ts).
  - It extracts a recipe's stacks by slot role and matches stacks against keys.
  - It computes per-craft amounts.
  - It lists the decisions the user still has to make.
  - It builds the requirement tree, including cycle detection and the cycle-growth factor.
- **The production line** (`ProductionLine`, `LineEdges`, `LineWalk`, `LineModel`,
  `LineCollapse`, productionLine.ts). It turns a requirement tree into item, fluid and
  machine nodes with merged edges. An optional pass collapses intermediate items.
- **Inline items** (`Loader`, loader.ts). `mergeInlineItems` keeps one definition per
  fingerprint.
- **Line widths** (`LineWidthCurve`, lineWidthCurve.ts). It sanitises a width curve
  configuration, converts amounts between units and evaluates the curve.
- **Validators** (`Validators`, assert.ts). These are the `assertX` family and
  `PackValidationError`.
- **The wiki converter script** (`WikiConvert`, scripts/convert-wiki-json.mjs).
  - Command-line parsing.
  - The URL test and the proxy URL.
  - Entry extraction, entry URLs and output file names.

Support modules:

- `Wrappers`: `Option` and `Result`.
- `Strings`: prefixes, search, UTF-16 code-unit order and decimal text.
- `JsValues`: JavaScript values, numbers, truthiness and `String()`.
- `OrderedMaps`: a JavaScript `Map` as an insertion-ordered list of entries.
- `PackTypes`: the pack records. Their shapes are inferred from use, because `src/jei/types`
  is not part of this model.

JavaScript numbers are `JsNumber` values: a finite decimal, NaN or an infinity. Planner and
line amounts are Dafny reals.

The model follows the code wherever the written description of the program is looser:

- **Object key order after `stabilize`.** `stabilize` re-inserts keys in UTF-16 code-unit
  order, so a character above U+FFFF (a surrogate pair) sorts before U+E000-U+FFFF.
  However, a JavaScript object enumerates array-index keys first, in numeric order. So a
  canonical object lists `"9"` before `"10"`, and both before any other key. The model
  says this (`CanonicalSorted`), not plain lexicographic order.
- **Tag candidates in the two planner entry points.** `buildRequirementTree` does not sort a
  tag's candidates, while `computePlannerDecisions` does. Only the single-candidate case
  reaches the tree, so the difference is unobservable there.

## Model

| member | source | states |
|---|---|---|
| Key.ItemKeyHashFromParts | src/jei/indexing/key.ts:8-10 | The fingerprint starts with the id, `::`, the meta text and `::`. |
| Key.ItemKeyHashIdentifiesVariant | src/jei/indexing/key.ts:4-10 | `itemKeyHash` (`Key.ItemKeyHash`): for one id and meta texts without `:`, two keys share a fingerprint iff their meta texts and canonical nbt texts agree. |
| Key.StackItemToItemKey | src/jei/indexing/key.ts:12-17 | The key has the stack's id. Meta and nbt are copied exactly when the stack defines them. |
| Key.HashAbsentMetaIsEmpty | src/jei/indexing/key.ts:9 | An absent meta and the meta `""` give the same fingerprint. |
| Key.HashAbsentNbtIsNull | src/jei/indexing/key.ts:9 | An absent nbt and a `null` nbt give the same fingerprint. |
| Key.HashDependsOnCanonicalNbt | src/jei/indexing/key.ts:8-10 | The fingerprint sees the nbt only through its canonical text. |
| Key.HashNbtOrderIndependent | src/jei/indexing/key.ts:8-10 | Nbt objects with the same properties in different insertion orders give the same fingerprint. |
| Key.HashSeparatesVariants | src/jei/indexing/key.ts:8-10 | For one id and meta texts without `:`, equal fingerprints mean equal meta texts and equal canonical nbt. |
| Key.StackKeyExactness | src/jei/indexing/key.ts:12-21 | A key made from a stack is exact iff the stack carries meta or nbt. Its fingerprint is that of the stack's parts. |
| StableJson.SortByKey | src/jei/utils/stableJson.ts:21 | The sorted fields are a permutation of the input, in non-decreasing UTF-16 code-unit order of keys. |
| StableJson.Stabilize | src/jei/utils/stableJson.ts:5-31 | Primitives are kept. Bigint, symbol and function become strings. Only undefined gives undefined. Arrays keep their length. |
| StableJson.StabilizeAll | src/jei/utils/stableJson.ts:15-17 | Array elements are stabilised one by one, and the length is kept. |
| StableJsonProps.SortByKeyStrict | src/jei/utils/stableJson.ts:21 | Fields with distinct keys come out in strictly increasing key order. |
| StableJsonProps.AssembleSorted | src/jei/utils/stableJson.ts:22-26 | Writing fields into a fresh object in UTF-16 code-unit order gives keys in the object's canonical enumeration order. Only fields that become own properties are written. |
| StableJsonProps.AssembleFields | src/jei/utils/stableJson.ts:22-26 | The assembled object holds exactly the fields whose stabilised value is defined and whose key is not `__proto__`. |
| StableJsonProps.StabilizedObjectFields | src/jei/utils/stableJson.ts:19-28 | Every field of a stabilised object is defined, is not named `__proto__`, and is the stabilised version of a field of the original. |
| StableJsonProps.StabilizeIsStable | src/jei/utils/stableJson.ts:5-31 | The result is in canonical form at every nesting level. |
| StableJsonProps.StableIsFixpoint | src/jei/utils/stableJson.ts:5-31 | A value already in canonical form is returned unchanged. |
| StableJsonProps.StabilizeIdempotent | src/jei/utils/stableJson.ts:5-31 | Stabilising twice equals stabilising once. |
| StableJsonProps.StabilizeOrderIndependent | src/jei/utils/stableJson.ts:19-28 | Objects with the same key/value pairs in any insertion order stabilise to the same value. |
| StableJsonProps.StableNeverThrows | src/jei/utils/stableJson.ts:1-3 | `JSON.stringify` raises no TypeError on a canonical value. |
| StableJsonProps.StableJsonStringifyIsText | src/jei/utils/stableJson.ts:1-3 | The canonical text of any defined value is a string. |
| StableJsonProps.StableJsonStringifySpec | src/jei/utils/stableJson.ts:1-3 | `stableJsonStringify` (`StableJson.StableJsonStringify`) gives the same text for a value and its canonical form, text for every defined value, and no text for `undefined`. |
| StableJsonProps.StableJsonStringifyOrderIndependent | src/jei/utils/stableJson.ts:1-28 | Objects with the same properties in different insertion orders have the same canonical text. |
| StableJsonProps.ProtoKeyDropped | src/jei/utils/stableJson.ts:25 | A stabilised object never has an own `__proto__` property, because `out[k] = v` with that key goes to the prototype setter. |
| Strings.StrLessIsUtf16Order | src/jei/utils/stableJson.ts:21 | The key order of `sort()` is lexicographic order on the keys' UTF-16 code units, a proper prefix first. |
| Strings.SurrogatesSortBeforeHighBmp | src/jei/utils/stableJson.ts:21 | U+1F600, encoded from the surrogate 0xD83D, sorts before U+FF61 although its scalar value is larger. |
| TagResolve.NormalizeTagId | src/jei/tags/resolve.ts:3-8 | One leading `#` is dropped. The result is empty iff what remains is empty. Otherwise it contains `:`: it is kept as is when it has a namespace, and gets the default namespace when it has none. |
| TagResolve.ValueId | src/jei/tags/resolve.ts:27-34 | A string value is a required id. An object value is required unless `required` is `false`. |
| TagResolve.Cached | src/jei/tags/resolve.ts:64-65 | The memo lookup finds an entry for the tag iff one was recorded. |
| TagResolve.ResolveTag | src/jei/tags/resolve.ts:60-114 | Resolution only grows the memo and the invalid set. It returns, and records, only known item ids. |
| TagResolve.ResolveValues | src/jei/tags/resolve.ts:79-113 | The values loop only grows the memo and the invalid set, and collects only known item ids. |
| TagResolve.ResolveAll | src/jei/tags/resolve.ts:116 | Resolving every defined tag only grows the state and keeps every memo entry within the known items. |
| TagResolve.AddPair | src/jei/tags/resolve.ts:15-25 | Adding a pair puts the item under the tag and the tag under the item, and changes nothing else. |
| TagResolve.AddTagItems | src/jei/tags/resolve.ts:118-123 | A resolved tag's items are added under the tag, and the tag under each of them. |
| TagResolve.KnownItemIds | src/jei/tags/resolve.ts:39-40 | The known ids are exactly the ids of the pack's item definitions. |
| TagResolveProps.NormalizeIdempotent | src/jei/tags/resolve.ts:3-8 | Normalising a normalised id that does not start with `#` changes nothing. |
| TagResolveProps.NormalizeDoubleHash | src/jei/tags/resolve.ts:3-8 | `##g:a` normalises to `#g:a`, which normalises again to `g:a`. |
| TagResolveProps.ResolveValuesOutcome | src/jei/tags/resolve.ts:79-113 | The loop either invalidates the tag and returns the empty set, or memoises exactly what it collected. |
| TagResolveProps.ResolveTagOutcome | src/jei/tags/resolve.ts:60-114 | Re-entering a tag on the path, or naming an undefined tag, invalidates it with the empty set. Any other resolution ends invalid or memoised. |
| TagResolveProps.BadValueInvalidates | src/jei/tags/resolve.ts:80-105 | A malformed value, or a required unknown item, among the values still to be read makes the tag invalid with the empty set. |
| TagResolveProps.CompletedHasKnownItems | src/jei/tags/resolve.ts:99-108 | A completed resolution contains every known item listed directly among the tag's values. |
| TagResolveProps.ResolveTagDisjoint | src/jei/tags/resolve.ts:60-114 | The memo and the invalid set stay disjoint, and no tag on the path gets memoised. A tag on the path is invalidated only together with the tag being resolved. |
| TagResolveProps.ResolveTagDefsDisjoint | src/jei/tags/resolve.ts:116 | With the corrected reference check, no tag ends both invalid and resolved. |
| TagResolveProps.AddItemDefTagsAt | src/jei/tags/resolve.ts:45-52 | After one definition's tags are added, a pair is in both maps iff the definition declares it or it was there before. |
| TagResolveProps.AddAllItemDefTagsAt | src/jei/tags/resolve.ts:53 | After every definition's tags are added, a pair is in both maps iff some definition declares it. |
| TagResolveProps.AddResolvedAt | src/jei/tags/resolve.ts:118-123 | After the resolved tags are added, a pair is in both maps iff it was there or some memo entry holds it. |
| TagResolveProps.BuildTagIndexAt | src/jei/tags/resolve.ts:36-126 | Tag t lists item i, and i lists t, iff a definition of i declares t or t resolved to a set holding i. |
| TagResolveProps.BuildTagIndexInverse | src/jei/tags/resolve.ts:36-126 | The two maps of the tag index are inverses of each other. |
| TagResolveProps.NormalizedTagsNonEmpty | src/jei/tags/resolve.ts:46-48 | A declared tag that survives normalisation is non-empty. |
| TagResolveProps.IndexItemsKnown | src/jei/tags/resolve.ts:45-123 | Every item the tag index mentions is the id of some item definition. |
| TagResolveProps.InvalidTagsOnlyDeclared | src/jei/tags/resolve.ts:60-123 | With the corrected check, an invalid tag lists exactly the items whose definitions declare it. |
| TagResolveProps.DoubleHashAsWritten | src/jei/tags/resolve.ts:87-94 | As written, tag `g:a = ["##g:a", "g:stone"]` ends both invalid and resolved, and `g:stone` reaches the index. |
| TagResolveProps.DoubleHashCorrected | src/jei/tags/resolve.ts:87-94 | With the check on the id actually resolved, `g:a` is invalid and lists no item. |
| TagMemo.Pos | src/jei/tags/resolve.ts:64-65 | The first memo position holding a tag, or the memo's length. It is in range iff `resolved.get` finds the tag, and then holds what it finds. |
| TagMemo.ResolveTagMemoises | src/jei/tags/resolve.ts:60-114 | Resolving a non-empty tag id that does not end invalid leaves it memoised with the returned set. |
| TagMemo.ResolveTagCompletes | src/jei/tags/resolve.ts:108-113 | A first resolution that succeeds appends the tag with its set as the last memo entry, after any tags it resolved on the way. |
| TagMemo.ResolveTagFresh | src/jei/tags/resolve.ts:60-114 | Every memo entry a resolution adds is a defined tag that was not on the path. |
| TagMemo.ResolveValuesFresh | src/jei/tags/resolve.ts:79-113 | Every memo entry the value loop adds is a defined tag off the path, or the tag itself, last. |
| TagMemo.ResolveTagMemoOk | src/jei/tags/resolve.ts:60-114 | With well-formed references, resolving keeps every memo entry a defined tag whose set is exactly its listed known items plus the sets of the tags it references, all memoised before it. |
| TagMemo.ResolveValuesMemoOk | src/jei/tags/resolve.ts:79-113 | The value loop keeps that memo invariant, given that the accumulated set is the union over the values read so far. |
| TagMemo.ResolveTagUnion | src/jei/tags/resolve.ts:60-114 | With well-formed references, a tag that resolves valid holds exactly the known items its definition lists plus the items of every tag it references. |
| TagSettle.ResolveAllMemoOk | src/jei/tags/resolve.ts:116 | Resolving every key keeps the memo invariant. |
| TagSettle.ResolveAllSettles | src/jei/tags/resolve.ts:116 | After the keys loop, every tag named by a key, or already settled, is invalid or memoised. |
| TagSettle.ResolveTagDefsMemoOk | src/jei/tags/resolve.ts:60-116 | With the corrected check or well-formed references, the final memo satisfies the invariant. |
| TagSettle.DefinedTagsSettle | src/jei/tags/resolve.ts:116 | Every defined tag with a non-empty normalised id ends invalid or memoised. |
| TagSettle.MemoisedTag | src/jei/tags/resolve.ts:60-116 | With the corrected check or well-formed references, a memoised tag is defined, every tag it references is memoised, and its set is the union of its listed known items and those tags' sets. |
| TagSettle.ChainPositions | src/jei/tags/resolve.ts:87-96 | Along a reference chain from a memoised tag, each step lies strictly earlier in the memo. |
| TagSettle.ChainUnmemoised | src/jei/tags/resolve.ts:87-96 | If the end of a reference chain is not memoised, no tag on the chain is. |
| TagSettle.CycleUnmemoised | src/jei/tags/resolve.ts:66-69 | A tag on a reference cycle is never memoised. |
| TagSettle.UndefinedUnmemoised | src/jei/tags/resolve.ts:71-75 | An undefined tag is never memoised. |
| TagSettle.UnresolvedRefInvalidates | src/jei/tags/resolve.ts:71-96 | With the corrected check or well-formed references, a defined tag that reaches, through `#` references, an undefined or invalid tag ends invalid and unmemoised. |
| TagSettle.CycleInvalidates | src/jei/tags/resolve.ts:66-96 | With the corrected check or well-formed references, a defined tag on a reference cycle of any length ends invalid and unmemoised. |
| TagIndexes.BuildTagIndex | src/jei/tags/resolve.ts:36-126 | `buildTagIndex` as written: its two maps are inverses, and a tag lists an item iff a definition of the item declares the tag or the tag resolved to a set holding it. |
| TagIndexes.CorrectedTagIndex | src/jei/tags/resolve.ts:36-126 | With the reference check corrected, the same holds, and a tag the resolver found invalid lists only the items that declare it. |
| TagIndexes.DoubleHashIndexes | src/jei/tags/resolve.ts:87-123 | For tag `g:a = ["##g:a", "g:stone"]`, the index as written lists `g:stone` under the invalid `g:a`, and the corrected one lists nothing there. |
| BuildIndex.IndexByKeySpec | src/jei/indexing/buildIndex.ts:93-96 | After `set` over a list, a key is present iff it was before or some element has it. Its entry is the last such element, else the old one. |
| BuildIndex.SlotIoFallback | src/jei/indexing/buildIndex.ts:31-35 | An undeclared slot is an output iff its lower-cased id starts with `out` or contains `output`. It is never a catalyst. |
| BuildIndex.SlotIoSpec | src/jei/indexing/buildIndex.ts:65-68 | A slot's role is the io of the last definition with its id, when that definition declares one. Otherwise the name fallback applies. |
| BuildIndex.DirectionOf | src/jei/indexing/buildIndex.ts:69 | Only output slots feed the producing maps. |
| BuildIndex.AddToMapArray | src/jei/indexing/buildIndex.ts:22-29 | The recipe id is appended to the list of the selected map under the key, and every other list is unchanged. |
| BuildIndex.IndexItemStack | src/jei/indexing/buildIndex.ts:43-58 | An exact stack is appended under its fingerprint, a bare one under its id, in the map of its direction only. |
| BuildIndexProps.AddItemHashesSpec | src/jei/indexing/buildIndex.ts:84-90 | The per-id hash lists grow by the fingerprints of the items with that id, in order. |
| BuildIndexProps.ItemKeyHashesInPackOrder | src/jei/indexing/buildIndex.ts:84-90 | `itemKeyHashesByItemId[id]` lists the fingerprint of every pack item with that id, in pack order. |
| BuildIndexProps.BuildJeiIndexSpec | src/jei/indexing/buildIndex.ts:80-148 | `buildJeiIndex` (`BuildIndex.BuildJeiIndex`): each id's fingerprint list is in pack order, the item and recipe maps hold exactly the pack's keys, each query returns exactly the matching recipes, and the tag index is the corrected one, with inverse maps. |
| BuildIndexProps.HashesOfSpec | src/jei/indexing/buildIndex.ts:84-90 | A hash is listed for an id iff some item with that id has that fingerprint. |
| BuildIndexProps.ItemsByKeyHashSpec | src/jei/indexing/buildIndex.ts:84-86 | `itemsByKeyHash` holds exactly the pack's fingerprints, each mapped to the last item with it. |
| BuildIndexProps.RecipesByIdSpec | src/jei/indexing/buildIndex.ts:95-96 | `recipesById` maps each recipe id to the last recipe with that id. |
| BuildIndexProps.IndexStacksAt | src/jei/indexing/buildIndex.ts:73-76 | After a slot's stacks are indexed, a recipe id is listed iff it was before or one of the stacks contributes it. |
| BuildIndexProps.IndexSlotsAt | src/jei/indexing/buildIndex.ts:60-78 | After a recipe's slots are indexed, a recipe id is listed iff it was before or some slot's stack contributes it. |
| BuildIndexProps.IndexRecipesAt | src/jei/indexing/buildIndex.ts:103-110 | After all recipes are indexed, an id is listed under a key iff some recipe with that id contributes it. |
| BuildIndexProps.RecipesForSpec | src/jei/indexing/buildIndex.ts:128-148 | The query (`BuildIndex.RecipesFor`, behind `recipesProducingItem` and `recipesConsumingItem`) returns exactly the recipes with an item stack of the right direction that is exact with the key's fingerprint or bare with its id. |
| BuildIndexProps.QueryComplete | src/jei/indexing/buildIndex.ts:60-148 | A recipe with an item stack in a slot shows up in the query for that stack's own key, in the slot's direction. |
| BuildIndexProps.NonItemStacksIgnored | src/jei/indexing/buildIndex.ts:74 | Fluid and tag stacks leave the reverse indices unchanged. |
| BuildIndexProps.ExactOrWildcard | src/jei/indexing/buildIndex.ts:53-57 | An exact stack is listed only in the exact map, a bare one only in the wildcard map, and always in one of them. |
| Planner.SortedElements | src/jei/planner/planner.ts:196 | The sorted candidates are exactly the set's elements, strictly ascending in JavaScript's default sort order (UTF-16 code units). |
| Planner.ExtractRecipeStacks | src/jei/planner/planner.ts:73-95 | Every extracted catalyst is an item stack. |
| PlannerProps.ExtractRecipeStacksSpec | src/jei/planner/planner.ts:73-95 | Outputs are the stacks of output slots and inputs the stacks of input slots. Catalysts are the item stacks of catalyst slots. Slot order is kept. |
| PlannerProps.RolesPartitionStacks | src/jei/planner/planner.ts:83-92 | Outputs, inputs and all catalyst-slot stacks together are a permutation of the recipe's stacks. |
| PlannerProps.StackMatchesOwnKey | src/jei/planner/planner.ts:97-115 | A stack matches its own key iff its meta is not NaN and its nbt, if any, serialises. |
| PlannerProps.BareKeyMatchesById | src/jei/planner/planner.ts:104-115 | A key with only an id matches exactly the item stacks with that id. |
| PlannerProps.MetaKindsFingerprintAlikeButDoNotMatch | src/jei/planner/planner.ts:104-115 | Meta `5` and meta `"5"` give one fingerprint, yet a stack with one never matches a key with the other. |
| PlannerProps.PerCraftAmountsBySlot | src/jei/planner/planner.ts:117-137 | A per-craft amount is the sum, over output (or input) slots, of the finite amounts of matching item stacks. |
| PlannerProps.SumMatchingNoMatch | src/jei/planner/planner.ts:119-125 | Stacks that do not match the key contribute nothing. |
| Planner.ChosenRecipeId | src/jei/planner/planner.ts:250-255 | A chosen recipe id is never empty. |
| Planner.GetChosenRecipe | src/jei/planner/planner.ts:250-260 | A chosen recipe is the one `recipesById` holds under the chosen id. |
| PlannerProps.DecisionsJustified | src/jei/planner/planner.ts:139-212 | Each item decision names an unvisited item with several producing recipes and no selection. Each tag decision lists the tag's sorted items, of which there are none, or several with no selection. |
| PlannerProps.TagAsksDecides | src/jei/planner/planner.ts:192-212 | A tag with no candidates, or several and no selection, within the depth limit yields exactly one decision listing its sorted candidates. |
| PlannerProps.VisitInputsComplete | src/jei/planner/planner.ts:154-212 | Every item input that needs a recipe choice, and every tag input that needs an item choice, gets its decision from the inputs loop. |
| PlannerProps.RootInputsDecided | src/jei/planner/planner.ts:139-212 | `computePlannerDecisions` (`Planner.ComputePlannerDecisions`): when the root needs no choice, every input of its chosen recipe that needs one is reported. |
| PlannerProps.RootDecisionIff | src/jei/planner/planner.ts:154-165 | The root gets a decision iff the depth admits it, several recipes produce it and none is selected. That decision is then the only one. |
| Planner.IndexOf | src/jei/planner/planner.ts:271 | The result is -1 iff the element is absent. Otherwise it is the first position holding it. |
| Planner.StepRatio | src/jei/planner/planner.ts:276-285 | A cycle step that has a ratio has a positive one. |
| Planner.CycleSteps | src/jei/planner/planner.ts:273-287 | There is one step per cycle key, in order, and every ratio present is positive. |
| PlannerCycle.CycleFactorIsProduct | src/jei/planner/planner.ts:273-287 | The cycle factor is the product of the step ratios when every step has one. It is 0 for an empty cycle or a failed step, and never negative. |
| PlannerCycle.CycleSeedMeansGrowth | src/jei/planner/planner.ts:289-316 | A node is a cycle seed iff the cycle is non-empty, every step succeeds and the product exceeds 1.000001. A non-seed keeps the amount asked of it. A seed starts from the last cycle item's chosen recipe's per-craft input of the key when that is positive, and from the amount asked of it otherwise. |
| Planner.CycleNode | src/jei/planner/planner.ts:270-317 | A revisited item becomes a childless cycle node with its number and key. |
| Planner.BuildForItem | src/jei/planner/planner.ts:262-390 | The node gets the next number. A non-cycle node carries the amount asked. Within the depth limit an item already on the path becomes a cycle node, and only such items do. |
| Planner.Expand | src/jei/planner/planner.ts:318-389 | An expanded node records its recipe, carries the amount asked and is not a cycle node. |
| Planner.BuildInput | src/jei/planner/planner.ts:349-372 | A child is made only for a positive need. A counted child carries exactly that need. |
| Planner.InputKey | src/jei/planner/planner.ts:353-361 | An item input stands for its own key. A tag input stands for its selected item (none if the selection is empty), else for its only candidate when there is exactly one non-empty candidate, else for nothing. |
| Planner.BuildChildren | src/jei/planner/planner.ts:348-372 | Every counted child carries its input's positive need, and the counter only grows. |
| Planner.BuildRequirementTree | src/jei/planner/planner.ts:214-394 | The root is node `n1` for the root key. It is not a cycle node, and its amount is the target, which defaults to 1. |
| PlannerTree.AddCatalystsMax | src/jei/planner/planner.ts:241-244 | After the catalysts are recorded, each id's entry is the larger of its old value and the largest catalyst amount for it. |
| PlannerTree.TreeTotals | src/jei/planner/planner.ts:228-394 | Leaf item totals sum the unexpanded item nodes with each id, and fluid totals sum the fluid nodes. Each catalyst entry is the largest amount any expanded recipe asks for. |
| PlannerTree.TreeNumbering | src/jei/planner/planner.ts:262-366 | Node numbers run 1, 2, 3, ... in preorder, so node ids are distinct. |
| ProductionLine.IdKinds | src/jei/planner/productionLine.ts:98-134 | Item, fluid and machine node ids are told apart by their prefix. |
| ProductionLine.IdsInjective | src/jei/planner/productionLine.ts:98-134 | Node ids of one kind are equal only for equal keys. |
| ProductionLine.EnsureItem | src/jei/planner/productionLine.ts:98-104 | The item's fingerprint gets registered, and the other maps are unchanged. |
| ProductionLine.EnsureFluid | src/jei/planner/productionLine.ts:106-111 | The fluid's `id[:unit]` key gets registered, and the other maps are unchanged. |
| ProductionLine.EnsureMachine | src/jei/planner/productionLine.ts:113-134 | The (recipe, output) machine gets registered, and the other maps are unchanged. |
| ProductionLine.AddToMachine | src/jei/planner/productionLine.ts:149-156 | Counting a node towards its machine leaves items, fluids and edges unchanged. |
| ProductionLine.ChildEdges | src/jei/planner/productionLine.ts:188-214 | The children loop leaves the machines unchanged. |
| ProductionLine.Incoming | src/jei/planner/productionLine.ts:297 | The list holds exactly the item edges from a machine into the node. |
| ProductionLine.Outgoing | src/jei/planner/productionLine.ts:298 | The list holds exactly the item edges from the node into a machine. |
| ProductionLine.FirstMax | src/jei/planner/productionLine.ts:303-305 | The chosen position holds a largest amount, and no earlier position holds as much. |
| ProductionLine.Producer | src/jei/planner/productionLine.ts:303-305 | The producer is an incoming machine edge whose amount is at least every other incoming amount. |
| ProductionLine.Rewired | src/jei/planner/productionLine.ts:312-320 | Each consumer edge is re-sourced at the producer's machine, with the same target, item and amount. |
| ProductionLine.NotRemoved | src/jei/planner/productionLine.ts:357 | The kept nodes are exactly the nodes whose ids were not removed. |
| ProductionLine.Reamount | src/jei/planner/productionLine.ts:376-380 | Re-amounting keeps machine nodes as they are. Item and fluid nodes keep every field except the amount, which is read from the amounts map. |
| LineEdges.AddEdgeAmount | src/jei/planner/productionLine.ts:136-147 | Adding a draft adds its amount to its own key's edge and to no other. |
| LineEdges.AddEdgeHas | src/jei/planner/productionLine.ts:136-147 | An edge is created only for a key not seen before. |
| LineEdges.MergeAllAmount | src/jei/planner/productionLine.ts:329-354 | After merging, each key's edge carries its old amount plus the drafts' amounts for that key. |
| LineEdges.MergeAllHas | src/jei/planner/productionLine.ts:329-354 | Merging creates exactly one edge per new draft key. |
| LineEdges.WellKeyedIds | src/jei/planner/productionLine.ts:143 | Edges filed under distinct keys as `e:<key>` have distinct ids. |
| LineWalk.WalkVisitsPreorder | src/jei/planner/productionLine.ts:158-218 | The walk visits exactly the tree's nodes, parents before children and children in order. |
| LineWalk.VisitAllEdges | src/jei/planner/productionLine.ts:176-214 | The walk's edges are the visits' drafts merged by key, in visiting order. |
| LineWalk.VisitAllMachineKeys | src/jei/planner/productionLine.ts:174-179 | Every node that builds a machine registers it, once. |
| LineWalk.VisitAllMachineAmounts | src/jei/planner/productionLine.ts:176-178 | A machine's amount is the total amount of the nodes that build it. |
| LineWalk.VisitAllItemKeys | src/jei/planner/productionLine.ts:98-104 | Every item met is registered once under its fingerprint, and marked root iff it is the root. |
| LineWalk.VisitAllItemSeeds | src/jei/planner/productionLine.ts:166-172 | An item's seed amount is the total that the item's cycle-seed nodes contribute. |
| LineWalk.VisitAllFluids | src/jei/planner/productionLine.ts:106-111 | Every fluid met is registered once, under `id[:unit]`. |
| LineModel.LineNodesDistinct | src/jei/planner/productionLine.ts:237-274 | When no map repeats a key, no node id repeats. |
| LineModel.NodeAmountsTotal | src/jei/planner/productionLine.ts:222-235 | Each node's amount is the sum of the edges credited to it. |
| LineModel.UncollapsedNodeIds | src/jei/planner/productionLine.ts:237-274 | Without the collapse pass, no two nodes share an id. |
| LineModel.UncollapsedEdges | src/jei/planner/productionLine.ts:136-276 | Without the collapse pass, the edges are the tree's drafts merged by key, with distinct ids. Item edges join a machine and an item, and fluid edges run from a fluid into a machine. |
| LineModel.UncollapsedItemNodes | src/jei/planner/productionLine.ts:238-249 | An item has a node iff the walk meets it. |
| LineModel.UncollapsedItemNode | src/jei/planner/productionLine.ts:238-249 | An item node's fingerprint is met by the walk, and it is root iff that fingerprint is the root's. Its amount is what the edges credit it, and its seed is the total of its cycle seeds, when positive. |
| LineModel.UncollapsedMachineNodes | src/jei/planner/productionLine.ts:261-274 | A machine has a node iff some tree node builds it. |
| LineModel.UncollapsedMachineNode | src/jei/planner/productionLine.ts:261-274 | A machine node's amount is the total of the tree nodes that build it. |
| LineModel.UncollapsedFluidNodes | src/jei/planner/productionLine.ts:250-260 | A fluid has a node iff the walk meets it. |
| LineModel.UncollapsedFluidNode | src/jei/planner/productionLine.ts:250-260 | A fluid node belongs to a fluid the walk meets, and its amount is what the edges credit it. |
| LineCollapse.ScanRemoves | src/jei/planner/productionLine.ts:296-310 | The scan removes exactly the item nodes it does not keep. |
| LineCollapse.ScanRewires | src/jei/planner/productionLine.ts:303-320 | Each consumer of a removed item gets an edge from the item's producing machine, with the same item and amount. |
| LineCollapse.ScanAddsMachineEdges | src/jei/planner/productionLine.ts:312-320 | Every edge the scan adds joins two machines. |
| LineCollapse.CollapsedEdgesAvoid | src/jei/planner/productionLine.ts:339-356 | No final edge touches a removed item node. |
| LineCollapse.CollapsedEdgeIds | src/jei/planner/productionLine.ts:323-356 | The final edges have distinct ids. |
| LineCollapse.CollapsedEdgeAmounts | src/jei/planner/productionLine.ts:323-356 | A final edge exists iff a surviving or rewired draft has its key. It carries the sum of both kinds of drafts for that key. |
| LineCollapse.CollapsedRewires | src/jei/planner/productionLine.ts:303-356 | Every consumer of a removed item has a final edge from the item's producer. |
| LineCollapse.CollapsedNodeIds | src/jei/planner/productionLine.ts:357 | After collapsing, no two nodes share an id. |
| LineCollapse.CollapsedNodeKept | src/jei/planner/productionLine.ts:296-301 | A node is dropped iff it is an item node that is neither root nor a cycle seed and has both a producer and a consumer. |
| LineCollapse.CollapsedNode | src/jei/planner/productionLine.ts:357-380 | Every final node is an original node, unchanged if a machine. An item or fluid node's amount is what the final edges credit it. |
| LineCollapse.CollapsedModel | src/jei/planner/productionLine.ts:278-381 | `buildProductionLineModel` (`ProductionLine.BuildProductionLineModel`) with the collapse pass: the collapsed model is the collapse of the plain one, and has distinct node ids and distinct edge ids. |
| Loader.DefHash | src/jei/pack/loader.ts:19-21 | The loader's own fingerprint agrees with the key module's. |
| Loader.SetAllGet | src/jei/pack/loader.ts:25 | After setting every catalog item, a fingerprint maps to the last catalog item with it. |
| Loader.SetMissingGet | src/jei/pack/loader.ts:26-31 | Inline items never replace a present entry. A new fingerprint takes the first inline item with it. |
| Loader.MergedGet | src/jei/pack/loader.ts:23-33 | The merged map holds, for each fingerprint, the catalog's last item with it, else the first inline item with it. |
| Loader.MergeInlineItemsDistinct | src/jei/pack/loader.ts:23-33 | `mergeInlineItems` (`Loader.MergeInlineItems`): the merged list has at most one item per fingerprint. |
| Loader.MergeInlineItemsChoice | src/jei/pack/loader.ts:23-33 | Each kept item is the last catalog item with its fingerprint, or the first inline one when the catalog has none. |
| Loader.MergeInlineItemsCovers | src/jei/pack/loader.ts:23-33 | A fingerprint has an item in the result iff a catalog or inline item has it. |
| LineWidthCurve.Clamp | src/jei/planner/lineWidthCurve.ts:21-23 | The result is within the bounds and equals the input inside them. When the bounds cross, `min` wins. |
| LineWidthCurve.SanitizeUnit | src/jei/planner/lineWidthCurve.ts:78-84 | A stored unit name is kept. Anything else becomes `per_minute`. |
| LineWidthCurve.SanitizeScale | src/jei/planner/lineWidthCurve.ts:85-86 | A stored scale name is kept. Anything else becomes the fallback. |
| LineWidthCurve.UnitRoundTrip | src/jei/planner/lineWidthCurve.ts:78-84 | Writing a unit out and reading it back gives the same unit. |
| LineWidthCurve.ScaleRoundTrip | src/jei/planner/lineWidthCurve.ts:85-86 | Writing a scale out and reading it back gives the same scale. |
| LineWidthCurve.NormalizeAxis | src/jei/planner/lineWidthCurve.ts:51-60 | A missing value or an empty range gives 0. On a linear axis the result lies in [0, 1]. |
| LineWidthCurve.DenormalizeAxis | src/jei/planner/lineWidthCurve.ts:62-71 | A missing value or an empty range gives `min`. On a linear axis the result lies in [min, max]. |
| LineWidthCurve.LinearRoundTrip | src/jei/planner/lineWidthCurve.ts:51-71 | On a linear axis, denormalising a normalised value gives the value clamped to the range. |
| LineWidthCurve.ConvertAmount | src/jei/planner/lineWidthCurve.ts:128-138 | The unit value is never negative. Per-second times 60, per-hour divided by 60, and belts times 60 times the belt speed all give the per-minute amount. |
| LineWidthCurve.Usable | src/jei/planner/lineWidthCurve.ts:88-94 | Usable points are exactly the finite stored points clamped into the box. |
| LineWidthCurve.SortByX | src/jei/planner/lineWidthCurve.ts:95 | The result is sorted by x and is a permutation of the points. |
| LineWidthCurve.SortByXStable | src/jei/planner/lineWidthCurve.ts:95 | The sort is stable: the points sharing any one x come out in their input order, which decides which of them the spacing pass moves right. |
| LineWidthCurve.BasePoints | src/jei/planner/lineWidthCurve.ts:88-103 | There are at least two base points, all with widths inside the bounds. |
| LineWidthCurve.PinEnds | src/jei/planner/lineWidthCurve.ts:105-106 | The first point moves to x = 0 and the last to x = maxInput. Everything else is kept. |
| LineWidthCurve.Spread | src/jei/planner/lineWidthCurve.ts:107-112 | The ends and all widths are kept, and each interior point sits at least the gap right of its predecessor. |
| LineWidthCurve.ClampYs | src/jei/planner/lineWidthCurve.ts:113-115 | Each width is clamped into the bounds, and each x is kept. |
| LineWidthCurve.MinWidth | src/jei/planner/lineWidthCurve.ts:74 | The minimum width lies in [0.5, 200]. It defaults to 2 and keeps an in-range value. |
| LineWidthCurve.MaxWidth | src/jei/planner/lineWidthCurve.ts:75-76 | The maximum width lies in [1, 300], at least 0.1 above the minimum. With no finite stored value it is `max(min + 0.1, 20)`. A stored value in [1, 300] and at least `min + 0.1` is kept. |
| LineWidthCurve.MaxInput | src/jei/planner/lineWidthCurve.ts:77 | The maximum input lies in [0.0001, 1000000]. It defaults to 500 and keeps an in-range value. |
| LineWidthCurve.Sanitize | src/jei/planner/lineWidthCurve.ts:73-126 | The sanitised configuration has bounded widths and input, and at least two points from x = 0 to maxInput with widths in range. |
| LineWidthCurve.SanitizeScalarsIdempotent | src/jei/planner/lineWidthCurve.ts:73-86 | Sanitising a sanitised configuration leaves its scalar fields unchanged. |
| LineWidthCurve.Segment | src/jei/planner/lineWidthCurve.ts:152-162 | The chosen segment's ends are points of the curve. |
| LineWidthCurve.Interpolate | src/jei/planner/lineWidthCurve.ts:152-173 | On a linear width axis with a non-empty width range, the interpolated width lies within the width bounds. |
| LineWidthCurve.EvaluateSanitized | src/jei/planner/lineWidthCurve.ts:142-173 | A missing or non-positive input gets the first point's width, and an input at or beyond `maxInput` gets the last point's width. On a linear width axis the width lies within the bounds. |
| LineWidthCurve.Evaluate | src/jei/planner/lineWidthCurve.ts:140-174 | Evaluating a raw configuration is evaluating its sanitised form, with the same guarantees. |
| Validators.ValidationError | src/jei/utils/assert.ts:1-9 | The error is named `PackValidationError`, keeps the path, and its message is the path, `: ` and the reason. |
| Validators.ValidationErrorInjective | src/jei/utils/assert.ts:4-8 | Equal errors for one path come from equal reasons. |
| Validators.IsRecord | src/jei/utils/assert.ts:11-13 | A record is a value of type `object` that is neither null nor an array. |
| Validators.AssertRecord | src/jei/utils/assert.ts:15-20 | Succeeds with the value unchanged iff it is a record. Otherwise fails with `<path>: expected object`. |
| Validators.AssertString | src/jei/utils/assert.ts:22-27 | Succeeds with the value unchanged iff it is a string. Otherwise fails with `<path>: expected string`. |
| Validators.AssertNumber | src/jei/utils/assert.ts:29-34 | Succeeds with the value unchanged iff it is a number other than NaN. Otherwise fails with `<path>: expected number`. |
| Validators.AssertNumberInfinities | src/jei/utils/assert.ts:29-34 | Both infinities pass, and NaN fails. |
| Validators.AssertArray | src/jei/utils/assert.ts:36-41 | Succeeds with the value unchanged iff it is an array. Otherwise fails with `<path>: expected array`. |
| Validators.AssertOptional | src/jei/utils/assert.ts:43-61 | Undefined is accepted as absent. Any other value has the plain validator's outcome and error. |
| Validators.OptionalOnlyAddsUndefined | src/jei/utils/assert.ts:43-61 | The optional validators accept exactly what the plain ones accept, plus undefined. |
| WikiConvert.WithValue | scripts/convert-wiki-json.mjs:14-28 | Setting one option changes only that option. |
| WikiConvert.ParseArgs | scripts/convert-wiki-json.mjs:9-34 | Every option value is empty or an argument after the script name. `overwrite` is set only when `--overwrite` is among those arguments. |
| WikiConvert.ParseConcat | scripts/convert-wiki-json.mjs:11-32 | Arguments that do not end in a value flag are read independently of what follows them. |
| WikiConvert.ParseArgsAppend | scripts/convert-wiki-json.mjs:11-32 | Appending arguments to a closed command line continues from its options. |
| WikiConvert.LaterFlagOverrides | scripts/convert-wiki-json.mjs:14-28 | A later `--flag value` overrides any earlier one and leaves the other options alone. |
| WikiConvert.MissingValueIgnored | scripts/convert-wiki-json.mjs:13-28 | A value flag at the end, or one followed by an empty argument, is ignored together with that argument. |
| WikiConvert.OverwriteFlag | scripts/convert-wiki-json.mjs:29-31 | `--overwrite` sets `overwrite` and nothing else. |
| WikiConvert.UnknownIgnored | scripts/convert-wiki-json.mjs:11-32 | An argument that is not a flag changes nothing. |
| WikiConvert.IsHttpUrl | scripts/convert-wiki-json.mjs:36-38 | A value is an http url iff, ignoring ASCII case, it starts with `http://` or `https://`. |
| WikiConvert.EncodeURIComponent | scripts/convert-wiki-json.mjs:47-49 | The encoding is no shorter than its input and uses only unreserved characters and `%`. An all-unreserved string is unchanged. |
| WikiConvert.ToProxyUrl | scripts/convert-wiki-json.mjs:44-50 | No proxy gives the url unchanged. A `{url}` placeholder's first occurrence is replaced by the encoded url. Otherwise the encoded url is appended. |
| WikiConvert.ExtractEntries | scripts/convert-wiki-json.mjs:106-113 | The entries are the first array among the value itself and its `files`, `items`, `data` and `list` fields, else empty. |
| WikiConvert.BuildEntryUrl | scripts/convert-wiki-json.mjs:115-122 | An http `url` field wins. Any non-empty result is truthy. Without an http url or path and without a base, the url is empty. |
| WikiConvert.BuildEntryUrlRule | scripts/convert-wiki-json.mjs:115-122 | Each of the five rules, when it is the first to apply, gives its own field or the base followed by it. |
| WikiConvert.WithJson | scripts/convert-wiki-json.mjs:126 | `.json` is appended unless the name already ends with it. |
| WikiConvert.UrlFileName | scripts/convert-wiki-json.mjs:129-133 | A name taken from a url ends in `.json` and has no path separator, query or fragment mark. |
| WikiConvert.DeriveFileName | scripts/convert-wiki-json.mjs:124-135 | Every name ends in `.json`. The call fails iff a truthy name is not a string, or, with no name or id, a truthy url is not a string. |
| WikiConvert.AnonymousFileName | scripts/convert-wiki-json.mjs:129-134 | An entry without name or id is named from a non-empty url, else by its position. |
| WikiConvert.AnonymousUrlName | scripts/convert-wiki-json.mjs:129-133 | An anonymous entry fetched from `dir/seg?query#fragment` is saved as `seg`, with `.json` added unless present. |

## Left out

- Network and file I/O are not modelled, because they have no pure meaning. This covers:
  - `fetch` and the loader's fetch and load functions (`fetchJson`, `loadManifest` and the
    other `load*` functions);
  - the script's `readJsonSource`, `ensureDir`, `writeJson`, `main` and directory handling.
- `normalizeWikiData` in the converter script is not modelled. It reads the clock
  (`Date.now`), and its other branches only reshape the JSON it writes out.
- `validate.ts`, `settings.ts`, `plannerUi.ts` and `src/jei/types` are not part of this
  model. The pack record shapes are inferred from their use.
- Floating point is modelled as exact reals for planner and line amounts. Rounding is not
  modelled.
- `Math.log1p` and `Math.expm1` are a parameter (`Logs`), so only the linear scale gets
  range guarantees.
- `createDefaultLineWidthCurveConfig` (src/jei/planner/lineWidthCurve.ts:29-49) is not
  modelled: its default points come from `Math.pow`, which the model does not have.
- LineWidthCurve.Interpolate: the width bound is proved for a linear width axis only,
  because the log axis goes through the `Logs` parameter.
- LineWidthCurve.ConvertAmount: the belt speed is a finite real. An infinite or NaN speed
  is not modelled.
- LineWidthCurve.Spread: only the spacing to the predecessor is proved. An interior point
  clamped against a crowded right neighbour may still pass `maxInput - minGap`, as in the
  source.
- Planner.BuildRequirementTree: `maxDepth` is an integer, and a fractional depth limit is
  not modelled.
- A JavaScript `Map` is modelled as an insertion-ordered list of entries. The recipe query
  results (`BuildIndex.RecipesFor`) and a decision's `recipeOptions` are Dafny sets. Their
  array order is not modelled: exact-fingerprint recipes first, then wildcard ones, each at
  its first occurrence (src/jei/indexing/buildIndex.ts:136 and 147, src/jei/planner/planner.ts:162).
- Some fingerprint and key collisions are not excluded, because the source does not exclude
  them:
  - an item id containing `::`;
  - a fluid id containing `:` (fluid key `id:unit`);
  - an edge key built from node ids that contain `->`;
  - a machine key `recipeId:fingerprint` whose recipe id contains `:`. Recipe `a` making item
    `b:c` and recipe `a:b` making item `c` share one machine, as in the source.
- BuildIndex.BuildJeiIndex: the tag index in the JEI index is `TagIndexes.CorrectedTagIndex`,
  the resolver with the corrected `#` reference check from the findings below.
  `TagIndexes.BuildTagIndex` is the index as written. The two differ only when a `#`
  reference normalises twice, as in `##g:a`.
- TagResolve.ResolveTag: its own contract states only that the state grows and that results
  are known item ids. What a resolution returns is stated by lemmas about it:
  `TagMemo.ResolveTagMemoises`, `TagMemo.ResolveTagUnion`, `TagSettle.CycleInvalidates` and
  `TagSettle.UnresolvedRefInvalidates`.
- TagResolve.ResolveValues: likewise, the union over the values is stated by
  `TagMemo.ResolveValuesMemoOk`, and bad values by `TagResolveProps.BadValueInvalidates`.
- PlannerProps.DecisionsJustified: states soundness only. Completeness is stated by
  `PlannerProps.RootDecisionIff` for the root, by `PlannerProps.VisitInputsComplete` for
  any recipe's inputs, and by `PlannerProps.RootInputsDecided` for the whole call one level down.
- TagResolveProps.ResolveTagOutcome: states only direct re-entry of the tag being resolved.
  Cycles of any length, and references that lead to an undefined or invalid tag, are stated
  for the whole resolution in `TagSettle.CycleInvalidates` and `TagSettle.UnresolvedRefInvalidates`.
- TagSettle.MemoisedTag: the union property is proved for the corrected check, or for packs
  whose `#` references are well formed. With a malformed `##` reference, the as-written
  resolver can memoise an invalid tag (see the findings).
- The `if (!producer) return` guard of the collapse scan is not modelled as a branch. It
  cannot be taken, because an item that is not kept has at least one incoming edge.
- WikiConvert.IsHttpUrl: a truthy non-string value is judged by its `String()` text.
- WikiConvert.EncodeURIComponent: the `URIError` for a lone surrogate is not modelled,
  because Dafny characters are Unicode scalar values.
- Number-to-text conversion is exact only for numbers printed without an exponent, and
  `-0` is not distinguished from `0`.

## Findings

| source | as written | input that shows it | evidently intended | confidence | as-written member | corrected member |
|---|---|---|---|---|---|---|
| src/jei/tags/resolve.ts:88-90 | After resolving a `#` reference, the check `invalid.has(refId)` uses the once-normalised id. `resolveTag` normalises that id again, so a `##ns:x` value invalidates `ns:x` but the check misses it. | Tag `g:a` with values `["##g:a", "g:stone"]`: `g:a` ends both invalid and resolved to `{g:stone}`, and `g:stone` is listed under `g:a`. | Check the invalidity of the id that was actually resolved, so the self-reference invalidates `g:a` and the index lists nothing under it. | not executed | TagResolveProps.DoubleHashAsWritten | TagIndexes.CorrectedTagIndex |
