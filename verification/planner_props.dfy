// Properties of the planner model: how recipe stacks are split by role, what a stack
// matches, when a decision is reported, and the totals and numbering of the tree.
module PlannerProps {
  import opened Wrappers
  import opened JsValues
  import opened StableJson
  import opened PackTypes
  import opened Key
  import opened TagResolve
  import opened BuildIndex
  import opened Planner

  // ---------------------------------------------------------------------------
  // Slot roles

  /** Reference definition: the stacks of every slot whose role is `io`, in slot order. */
  function StacksWithIo(entries: seq<SlotEntry>, rt: Option<RecipeTypeDef>, io: Io): seq<Stack>
    decreases |entries|
  {
    if |entries| == 0 then []
    else (if SlotIo(rt, entries[0].slotId) == io then entries[0].stacks else []) + StacksWithIo(entries[1..], rt, io)
  }

  /** Every stack of every slot, in slot order. */
  function AllStacks(entries: seq<SlotEntry>): seq<Stack>
    decreases |entries|
  {
    if |entries| == 0 then [] else entries[0].stacks + AllStacks(entries[1..])
  }

  lemma {:induction false} ItemStacksOnlyAppend(a: seq<Stack>, b: seq<Stack>)
    ensures ItemStacksOnly(a + b) == ItemStacksOnly(a) + ItemStacksOnly(b)
    decreases |a|
  {
    if |a| > 0 {
      assert (a + b)[1..] == a[1..] + b;
      ItemStacksOnlyAppend(a[1..], b);
    } else {
      assert a + b == b;
    }
  }

  /** The step of `ExtractSlots` for one slot entry. */
  function ExtractStep(e: SlotEntry, rt: Option<RecipeTypeDef>, acc: RecipeStacks): RecipeStacks {
    var io := SlotIo(rt, e.slotId);
    if io == Output then acc.(outputs := acc.outputs + e.stacks)
    else if io == Catalyst then acc.(catalysts := acc.catalysts + ItemStacksOnly(e.stacks))
    else acc.(inputs := acc.inputs + e.stacks)
  }

  lemma ExtractSlotsUnfold(entries: seq<SlotEntry>, rt: Option<RecipeTypeDef>, acc: RecipeStacks)
    requires |entries| > 0 && AllItems(acc.catalysts)
    ensures AllItems(ExtractStep(entries[0], rt, acc).catalysts)
    ensures ExtractSlots(entries, rt, acc) == ExtractSlots(entries[1..], rt, ExtractStep(entries[0], rt, acc))
  {
  }

  lemma {:induction false} ExtractOutputs(entries: seq<SlotEntry>, rt: Option<RecipeTypeDef>, acc: RecipeStacks)
    requires AllItems(acc.catalysts)
    ensures ExtractSlots(entries, rt, acc).outputs == acc.outputs + StacksWithIo(entries, rt, Output)
    decreases |entries|
  {
    if |entries| > 0 {
      var next := ExtractStep(entries[0], rt, acc);
      ExtractSlotsUnfold(entries, rt, acc);
      ExtractOutputs(entries[1..], rt, next);
      var here := if SlotIo(rt, entries[0].slotId) == Output then entries[0].stacks else [];
      assert next.outputs == acc.outputs + here;
      assert acc.outputs + here + StacksWithIo(entries[1..], rt, Output) == acc.outputs + (here + StacksWithIo(entries[1..], rt, Output));
    }
  }

  lemma {:induction false} ExtractInputs(entries: seq<SlotEntry>, rt: Option<RecipeTypeDef>, acc: RecipeStacks)
    requires AllItems(acc.catalysts)
    ensures ExtractSlots(entries, rt, acc).inputs == acc.inputs + StacksWithIo(entries, rt, Input)
    decreases |entries|
  {
    if |entries| > 0 {
      var next := ExtractStep(entries[0], rt, acc);
      ExtractSlotsUnfold(entries, rt, acc);
      ExtractInputs(entries[1..], rt, next);
      var io := SlotIo(rt, entries[0].slotId);
      assert io == Input || io == Output || io == Catalyst;
      var here := if io == Input then entries[0].stacks else [];
      assert next.inputs == acc.inputs + here;
      assert acc.inputs + here + StacksWithIo(entries[1..], rt, Input) == acc.inputs + (here + StacksWithIo(entries[1..], rt, Input));
    }
  }

  lemma {:induction false} ExtractCatalysts(entries: seq<SlotEntry>, rt: Option<RecipeTypeDef>, acc: RecipeStacks)
    requires AllItems(acc.catalysts)
    ensures ExtractSlots(entries, rt, acc).catalysts == acc.catalysts + ItemStacksOnly(StacksWithIo(entries, rt, Catalyst))
    decreases |entries|
  {
    if |entries| > 0 {
      var next := ExtractStep(entries[0], rt, acc);
      ExtractSlotsUnfold(entries, rt, acc);
      ExtractCatalysts(entries[1..], rt, next);
      var rest := StacksWithIo(entries[1..], rt, Catalyst);
      if SlotIo(rt, entries[0].slotId) == Catalyst {
        var here := entries[0].stacks;
        assert next.catalysts == acc.catalysts + ItemStacksOnly(here);
        assert StacksWithIo(entries, rt, Catalyst) == here + rest;
        ItemStacksOnlyAppend(here, rest);
        assert acc.catalysts + ItemStacksOnly(here) + ItemStacksOnly(rest) == acc.catalysts + (ItemStacksOnly(here) + ItemStacksOnly(rest));
      } else {
        assert next.catalysts == acc.catalysts;
        assert StacksWithIo(entries, rt, Catalyst) == rest;
      }
    }
  }

  /**
   * `extractRecipeStacks` puts every stack of an output slot among the outputs, the item
   * stacks of a catalyst slot among the catalysts, and every stack of any other slot among
   * the inputs, each in slot order.
   */
  lemma ExtractRecipeStacksSpec(recipe: Recipe, rt: Option<RecipeTypeDef>)
    ensures ExtractRecipeStacks(recipe, rt).outputs == StacksWithIo(recipe.slotContents, rt, Output)
    ensures ExtractRecipeStacks(recipe, rt).inputs == StacksWithIo(recipe.slotContents, rt, Input)
    ensures ExtractRecipeStacks(recipe, rt).catalysts == ItemStacksOnly(StacksWithIo(recipe.slotContents, rt, Catalyst))
  {
    var acc := RecipeStacks([], [], []);
    ExtractOutputs(recipe.slotContents, rt, acc);
    ExtractInputs(recipe.slotContents, rt, acc);
    ExtractCatalysts(recipe.slotContents, rt, acc);
  }

  lemma StacksWithIoCount(entries: seq<SlotEntry>, rt: Option<RecipeTypeDef>, io: Io, x: Stack)
    requires |entries| > 0
    ensures multiset(StacksWithIo(entries, rt, io))[x] ==
      (if SlotIo(rt, entries[0].slotId) == io then multiset(entries[0].stacks)[x] else 0)
      + multiset(StacksWithIo(entries[1..], rt, io))[x]
  {
  }

  lemma {:induction false} RolesPartitionAt(entries: seq<SlotEntry>, rt: Option<RecipeTypeDef>, x: Stack)
    ensures multiset(AllStacks(entries))[x] ==
      multiset(StacksWithIo(entries, rt, Input))[x] + multiset(StacksWithIo(entries, rt, Output))[x]
      + multiset(StacksWithIo(entries, rt, Catalyst))[x]
    decreases |entries|
  {
    if |entries| > 0 {
      RolesPartitionAt(entries[1..], rt, x);
      StacksWithIoCount(entries, rt, Input, x);
      StacksWithIoCount(entries, rt, Output, x);
      StacksWithIoCount(entries, rt, Catalyst, x);
      var io := SlotIo(rt, entries[0].slotId);
      assert io == Input || io == Output || io == Catalyst;
      assert multiset(AllStacks(entries))[x] == multiset(entries[0].stacks)[x] + multiset(AllStacks(entries[1..]))[x];
    }
  }

  /** Every stack of a recipe has exactly one role: the three role lists partition the stacks. */
  lemma RolesPartitionStacks(entries: seq<SlotEntry>, rt: Option<RecipeTypeDef>)
    ensures multiset(AllStacks(entries)) ==
      multiset(StacksWithIo(entries, rt, Input)) + multiset(StacksWithIo(entries, rt, Output))
      + multiset(StacksWithIo(entries, rt, Catalyst))
  {
    forall x {
      RolesPartitionAt(entries, rt, x);
    }
  }

  // ---------------------------------------------------------------------------
  // Matching and per-craft amounts

  /** A numeric meta strictly equals itself unless it is NaN. */
  lemma NumberEqReflexive(n: JsNumber)
    ensures NumberEq(n, n) <==> !n.NaN?
  {
  }

  /**
   * A stack matches the key made from it exactly when its meta is not NaN and its nbt, if
   * any, can be serialised: `stackMatchesKey` is strict equality after `JSON.stringify`.
   */
  lemma StackMatchesOwnKey(s: Stack)
    requires s.ItemStack?
    ensures StackMatchesKey(s, StackItemToItemKey(s)) <==>
      (s.meta.None? || s.meta.value != MetaNum(NaN)) && (s.nbt.JUndefined? || !Stringify(s.nbt).TypeError?)
  {
    if s.meta.Some? {
      match s.meta.value
      case MetaNum(n) => NumberEqReflexive(n);
      case MetaStr(_) =>
    }
  }

  /** A bare key `{ id }` matches every item stack with that id. */
  lemma BareKeyMatchesById(s: Stack, id: string)
    requires s.ItemStack?
    ensures StackMatchesKey(s, BareKey(id)) <==> s.id == id
  {
  }

  /**
   * The numeric meta 5 and the string meta "5" give one fingerprint, yet a stack with one
   * never matches a key with the other.
   */
  lemma MetaKindsFingerprintAlikeButDoNotMatch(id: string, amount: JsNumber)
    ensures ItemKeyHash(ItemKey(id, Some(MetaNum(Dec(5, 0))), JUndefined)) == ItemKeyHash(ItemKey(id, Some(MetaStr("5")), JUndefined))
    ensures !StackMatchesKey(ItemStack(id, Some(MetaNum(Dec(5, 0))), JUndefined, amount, None), ItemKey(id, Some(MetaStr("5")), JUndefined))
  {
    assert NumberText(Dec(5, 0)) == "5";
  }

  lemma {:induction false} SumMatchingAppend(a: seq<Stack>, b: seq<Stack>, key: ItemKey)
    ensures SumMatching(a + b, key) == SumMatching(a, key) + SumMatching(b, key)
    decreases |a|
  {
    if |a| > 0 {
      assert (a + b)[1..] == a[1..] + b;
      SumMatchingAppend(a[1..], b, key);
    } else {
      assert a + b == b;
    }
  }

  /** Reference definition: the matching amounts slot by slot. */
  function SlotSum(entries: seq<SlotEntry>, rt: Option<RecipeTypeDef>, io: Io, key: ItemKey): real
    decreases |entries|
  {
    if |entries| == 0 then 0.0
    else
      (if SlotIo(rt, entries[0].slotId) == io then SumMatching(entries[0].stacks, key) else 0.0)
      + SlotSum(entries[1..], rt, io, key)
  }

  lemma {:induction false} SumOverSlots(entries: seq<SlotEntry>, rt: Option<RecipeTypeDef>, io: Io, key: ItemKey)
    ensures SumMatching(StacksWithIo(entries, rt, io), key) == SlotSum(entries, rt, io, key)
    decreases |entries|
  {
    if |entries| > 0 {
      var here := if SlotIo(rt, entries[0].slotId) == io then entries[0].stacks else [];
      SumMatchingAppend(here, StacksWithIo(entries[1..], rt, io), key);
      SumOverSlots(entries[1..], rt, io, key);
      assert SumMatching([], key) == 0.0;
    }
  }

  /**
   * The per-craft output (input) amount of an item is the sum, over the recipe's output
   * (input) slots, of the finite amounts of the stacks there that match the key.
   */
  lemma PerCraftAmountsBySlot(recipe: Recipe, rt: Option<RecipeTypeDef>, key: ItemKey)
    ensures PerCraftOutputAmountFor(recipe, rt, key) == SlotSum(recipe.slotContents, rt, Output, key)
    ensures PerCraftInputAmountFor(recipe, rt, key) == SlotSum(recipe.slotContents, rt, Input, key)
  {
    ExtractRecipeStacksSpec(recipe, rt);
    SumOverSlots(recipe.slotContents, rt, Output, key);
    SumOverSlots(recipe.slotContents, rt, Input, key);
  }

  /** Stacks that do not match the key contribute nothing. */
  lemma {:induction false} SumMatchingNoMatch(ss: seq<Stack>, key: ItemKey)
    requires forall i :: 0 <= i < |ss| && ss[i].ItemStack? ==> !StackMatchesKey(ss[i], key)
    ensures SumMatching(ss, key) == 0.0
    decreases |ss|
  {
    if |ss| > 0 {
      SumMatchingNoMatch(ss[1..], key);
    }
  }

  // ---------------------------------------------------------------------------
  // Decisions

  /**
   * A reported decision is justified: an item decision names an item not yet on the
   * visiting path that has several producing recipes and no selection; a tag decision lists
   * the tag's items sorted, and there are none or several of them and no selection.
   */
  predicate Justified(c: PlanCtx, visiting: set<string>, d: Decision) {
    match d
    case ItemRecipe(key, h, options) =>
      h == ItemKeyHash(key) && h !in visiting && options == RecipesProducingItem(c.index, key)
      && |options| > 1 && h !in c.selectedRecipe
    case TagItem(t, candidates) =>
      candidates == SortedElements(GetSet(c.index.tags.itemIdsByTagId, t))
      && (|candidates| == 0 || (|candidates| > 1 && t !in c.selectedItem))
  }

  lemma {:induction false} VisitItemJustified(c: PlanCtx, key: ItemKey, depth: nat, visiting: set<string>)
    ensures forall d :: d in VisitItem(c, key, depth, visiting) ==> Justified(c, visiting, d)
    decreases Remaining(c, depth), 1, 0
  {
    if depth <= c.maxDepth {
      var h := ItemKeyHash(key);
      var options := RecipesProducingItem(c.index, key);
      if h !in visiting && !(|options| > 1 && h !in c.selectedRecipe) {
        match GetChosenRecipe(c, key)
        case None =>
        case Some(ch) =>
          VisitInputsJustified(c, ExtractRecipeStacks(ch.recipe, ch.rtype).inputs, depth, visiting + {h});
      }
    }
  }

  lemma {:induction false} VisitInputsJustified(c: PlanCtx, inputs: seq<Stack>, depth: nat, visiting: set<string>)
    requires depth <= c.maxDepth
    ensures forall d :: d in VisitInputs(c, inputs, depth, visiting) ==> Justified(c, visiting, d)
    decreases Remaining(c, depth), 0, |inputs|
  {
    if |inputs| > 0 {
      match inputs[0] {
      case ItemStack(_, _, _, _, _) => VisitItemJustified(c, StackItemToItemKey(inputs[0]), depth + 1, visiting);
      case TagStack(id, _, _) => VisitTagJustified(c, id, depth + 1, visiting);
      case FluidStack(_, _, _) =>
      }
      VisitInputsJustified(c, inputs[1..], depth, visiting);
    }
  }

  lemma {:induction false} VisitTagJustified(c: PlanCtx, tagId: string, depth: nat, visiting: set<string>)
    ensures forall d :: d in VisitTag(c, tagId, depth, visiting) ==> Justified(c, visiting, d)
    decreases Remaining(c, depth), 2, 0
  {
    if depth <= c.maxDepth {
      var normalized := NormalizeTagId(tagId, c.ns);
      var candidates := SortedElements(GetSet(c.index.tags.itemIdsByTagId, normalized));
      if |candidates| > 0 && !(|candidates| > 1 && normalized !in c.selectedItem) {
        var chosen := if normalized in c.selectedItem then c.selectedItem[normalized] else candidates[0];
        if chosen != "" {
          VisitItemJustified(c, BareKey(chosen), depth + 1, visiting);
        }
      }
    }
  }

  /** `visitItem` of this key asks for a recipe: within depth, off the path, several recipes, none selected. */
  predicate ItemAsks(c: PlanCtx, key: ItemKey, depth: nat, visiting: set<string>) {
    depth <= c.maxDepth && ItemKeyHash(key) !in visiting
    && |RecipesProducingItem(c.index, key)| > 1 && ItemKeyHash(key) !in c.selectedRecipe
  }

  /** `visitTag` of this tag asks for an item: within depth, and no candidate or several with none selected. */
  predicate TagAsks(c: PlanCtx, tagId: string, depth: nat) {
    var t := NormalizeTagId(tagId, c.ns);
    var candidates := GetSet(c.index.tags.itemIdsByTagId, t);
    depth <= c.maxDepth && (|candidates| == 0 || (|candidates| > 1 && t !in c.selectedItem))
  }

  /** An item that asks for a recipe yields exactly its own decision and is not expanded further. */
  lemma ItemAsksDecides(c: PlanCtx, key: ItemKey, depth: nat, visiting: set<string>)
    requires ItemAsks(c, key, depth, visiting)
    ensures VisitItem(c, key, depth, visiting)
      == [ItemRecipe(key, ItemKeyHash(key), RecipesProducingItem(c.index, key))]
  {
  }

  /** A tag that asks for an item yields exactly its own decision, listing its candidates in order. */
  lemma TagAsksDecides(c: PlanCtx, tagId: string, depth: nat, visiting: set<string>)
    requires TagAsks(c, tagId, depth)
    ensures var t := NormalizeTagId(tagId, c.ns);
      VisitTag(c, tagId, depth, visiting) == [TagItem(t, SortedElements(GetSet(c.index.tags.itemIdsByTagId, t)))]
  {
    var t := NormalizeTagId(tagId, c.ns);
    assert |SortedElements(GetSet(c.index.tags.itemIdsByTagId, t))| == |GetSet(c.index.tags.itemIdsByTagId, t)|;
  }

  /**
   * Every item input of a visited recipe that needs a recipe choice, and every tag input that
   * needs an item choice, gets its decision: with `VisitInputsJustified` the decisions are
   * exactly the justified ones among the inputs reached.
   */
  lemma {:induction false} VisitInputsComplete(c: PlanCtx, inputs: seq<Stack>, depth: nat, visiting: set<string>, j: nat)
    requires depth <= c.maxDepth && j < |inputs|
    ensures inputs[j].ItemStack? && ItemAsks(c, StackItemToItemKey(inputs[j]), depth + 1, visiting) ==>
      var key := StackItemToItemKey(inputs[j]);
      ItemRecipe(key, ItemKeyHash(key), RecipesProducingItem(c.index, key)) in VisitInputs(c, inputs, depth, visiting)
    ensures inputs[j].TagStack? && TagAsks(c, inputs[j].id, depth + 1) ==>
      var t := NormalizeTagId(inputs[j].id, c.ns);
      TagItem(t, SortedElements(GetSet(c.index.tags.itemIdsByTagId, t))) in VisitInputs(c, inputs, depth, visiting)
    decreases j
  {
    var rest := VisitInputs(c, inputs[1..], depth, visiting);
    var first :=
      match inputs[0]
      case ItemStack(_, _, _, _, _) => VisitItem(c, StackItemToItemKey(inputs[0]), depth + 1, visiting)
      case TagStack(id, _, _) => VisitTag(c, id, depth + 1, visiting)
      case FluidStack(_, _, _) => [];
    assert VisitInputs(c, inputs, depth, visiting) == first + rest;
    if j == 0 {
      if inputs[0].ItemStack? && ItemAsks(c, StackItemToItemKey(inputs[0]), depth + 1, visiting) {
        ItemAsksDecides(c, StackItemToItemKey(inputs[0]), depth + 1, visiting);
        assert first[0] in first + rest;
      } else if inputs[0].TagStack? && TagAsks(c, inputs[0].id, depth + 1) {
        TagAsksDecides(c, inputs[0].id, depth + 1, visiting);
        assert first[0] in first + rest;
      }
    } else {
      VisitInputsComplete(c, inputs[1..], depth, visiting, j - 1);
      assert inputs[1..][j - 1] == inputs[j];
    }
  }

  /** Every decision `computePlannerDecisions` reports is justified. */
  lemma DecisionsJustified(pack: PackData, index: JeiIndex, rootKey: ItemKey, selectedRecipe: map<string, string>,
                           selectedItem: map<string, string>, maxDepth: Option<int>, d: Decision)
    requires d in ComputePlannerDecisions(pack, index, rootKey, selectedRecipe, selectedItem, maxDepth)
    ensures Justified(MakeCtx(pack, index, selectedRecipe, selectedItem, maxDepth), {}, d)
  {
    VisitItemJustified(MakeCtx(pack, index, selectedRecipe, selectedItem, maxDepth), rootKey, 0, {});
  }

  /**
   * When the root needs no decision of its own and has a chosen recipe, every item input of
   * that recipe that needs a recipe choice, and every tag input that needs an item choice,
   * is reported: with `DecisionsJustified`, the first level below the root is exact.
   */
  lemma RootInputsDecided(pack: PackData, index: JeiIndex, rootKey: ItemKey, selectedRecipe: map<string, string>,
                          selectedItem: map<string, string>, maxDepth: Option<int>, j: nat)
    requires var c := MakeCtx(pack, index, selectedRecipe, selectedItem, maxDepth);
      c.maxDepth >= 0 && !(|RecipesProducingItem(index, rootKey)| > 1 && ItemKeyHash(rootKey) !in selectedRecipe)
    requires var c := MakeCtx(pack, index, selectedRecipe, selectedItem, maxDepth);
      GetChosenRecipe(c, rootKey).Some?
      && j < |ExtractRecipeStacks(GetChosenRecipe(c, rootKey).value.recipe, GetChosenRecipe(c, rootKey).value.rtype).inputs|
    ensures var c := MakeCtx(pack, index, selectedRecipe, selectedItem, maxDepth);
      var ch := GetChosenRecipe(c, rootKey).value;
      var input := ExtractRecipeStacks(ch.recipe, ch.rtype).inputs[j];
      var ds := ComputePlannerDecisions(pack, index, rootKey, selectedRecipe, selectedItem, maxDepth);
      && (input.ItemStack? && ItemAsks(c, StackItemToItemKey(input), 1, {ItemKeyHash(rootKey)}) ==>
            var key := StackItemToItemKey(input);
            ItemRecipe(key, ItemKeyHash(key), RecipesProducingItem(index, key)) in ds)
      && (input.TagStack? && TagAsks(c, input.id, 1) ==>
            var t := NormalizeTagId(input.id, c.ns);
            TagItem(t, SortedElements(GetSet(index.tags.itemIdsByTagId, t))) in ds)
  {
    var c := MakeCtx(pack, index, selectedRecipe, selectedItem, maxDepth);
    var h := ItemKeyHash(rootKey);
    var ch := GetChosenRecipe(c, rootKey).value;
    var inputs := ExtractRecipeStacks(ch.recipe, ch.rtype).inputs;
    var start: set<string> := {};
    assert start + {h} == {h};
    assert ComputePlannerDecisions(pack, index, rootKey, selectedRecipe, selectedItem, maxDepth) == VisitInputs(c, inputs, 0, {h});
    VisitInputsComplete(c, inputs, 0, {h}, j);
  }

  /**
   * The root item gets a recipe decision exactly when the depth limit admits it, several
   * recipes produce it and none is selected; it is then the only decision.
   */
  lemma RootDecisionIff(pack: PackData, index: JeiIndex, rootKey: ItemKey, selectedRecipe: map<string, string>,
                        selectedItem: map<string, string>, maxDepth: Option<int>)
    ensures var ds := ComputePlannerDecisions(pack, index, rootKey, selectedRecipe, selectedItem, maxDepth);
      var options := RecipesProducingItem(index, rootKey);
      var h := ItemKeyHash(rootKey);
      (exists d :: d in ds && d.ItemRecipe? && d.itemKeyHash == h) <==>
        (MakeCtx(pack, index, selectedRecipe, selectedItem, maxDepth).maxDepth >= 0 && |options| > 1 && h !in selectedRecipe)
    ensures var ds := ComputePlannerDecisions(pack, index, rootKey, selectedRecipe, selectedItem, maxDepth);
      var options := RecipesProducingItem(index, rootKey);
      var h := ItemKeyHash(rootKey);
      MakeCtx(pack, index, selectedRecipe, selectedItem, maxDepth).maxDepth >= 0 && |options| > 1 && h !in selectedRecipe ==>
        ds == [ItemRecipe(rootKey, h, options)]
  {
    var c := MakeCtx(pack, index, selectedRecipe, selectedItem, maxDepth);
    var h := ItemKeyHash(rootKey);
    var options := RecipesProducingItem(index, rootKey);
    var ds := ComputePlannerDecisions(pack, index, rootKey, selectedRecipe, selectedItem, maxDepth);
    if c.maxDepth >= 0 && !(|options| > 1 && h !in selectedRecipe) {
      match GetChosenRecipe(c, rootKey)
      case None =>
      case Some(ch) =>
        var inputs := ExtractRecipeStacks(ch.recipe, ch.rtype).inputs;
        var start: set<string> := {};
        assert start + {h} == {h};
        assert ds == VisitItem(c, rootKey, 0, start);
        assert ds == VisitInputs(c, inputs, 0, {h});
        VisitInputsJustified(c, inputs, 0, {h});
    }
  }
}
