// The requirement planner of src/jei/planner/planner.ts: the slot roles of a recipe, the
// per-craft amount of an item a recipe yields or consumes, the list of decisions a player
// still has to make, and the requirement tree with its leaf, fluid and catalyst totals.
//
// The planner's mutable `visiting` set and `stackHashes`/`stackKeys` stacks are pushed on
// entry and popped on every exit, so they are a parameter here (`visiting`, `path`); the
// node counter and the three totals maps are threaded through as a `TreeState`.
module Planner {
  import opened Wrappers
  import opened Strings
  import opened JsValues
  import opened StableJson
  import opened PackTypes
  import opened Key
  import opened TagResolve
  import opened BuildIndex

  // ---------------------------------------------------------------------------
  // Sorted set elements (`Array.from(set).sort()`)

  predicate IsMin(s: set<string>, m: string) {
    m in s && forall y :: y in s ==> !StrLess(y, m)
  }

  lemma {:induction false} MinExists(s: set<string>)
    requires s != {}
    ensures exists m :: IsMin(s, m)
    decreases |s|
  {
    var x :| x in s;
    if s == {x} {
      StrLessIrreflexive(x);
      assert IsMin(s, x);
    } else {
      MinExists(s - {x});
      var m :| IsMin(s - {x}, m);
      if StrLess(x, m) {
        forall y | y in s
          ensures !StrLess(y, x)
        {
          StrLessIrreflexive(x);
          if y != x && StrLess(y, x) {
            StrLessTransitive(y, x, m);
          }
        }
        assert IsMin(s, x);
      } else {
        assert IsMin(s, m);
      }
    }
  }

  lemma MinUnique(s: set<string>)
    ensures forall a, b :: IsMin(s, a) && IsMin(s, b) ==> a == b
  {
    forall a, b | IsMin(s, a) && IsMin(s, b)
      ensures a == b
    {
      if a != b {
        StrLessTotal(a, b);
      }
    }
  }

  lemma MinIsLeast(s: set<string>, m: string)
    requires IsMin(s, m)
    ensures forall y :: y in s && y != m ==> StrLess(m, y)
  {
    forall y | y in s && y != m
      ensures StrLess(m, y)
    {
      StrLessTotal(m, y);
    }
  }

  /** The least element of a non-empty set of strings, in JavaScript's string order. */
  function MinElement(s: set<string>): (m: string)
    requires s != {}
    ensures m in s
    ensures forall y :: y in s && y != m ==> StrLess(m, y)
  {
    MinExists(s);
    MinUnique(s);
    var m :| IsMin(s, m);
    MinIsLeast(s, m);
    m
  }

  /** The elements of a set, strictly ascending in JavaScript's default sort order. */
  function SortedElements(s: set<string>): (r: seq<string>)
    ensures |r| == |s|
    ensures forall x :: x in r <==> x in s
    ensures forall i, j :: 0 <= i < j < |r| ==> StrLess(r[i], r[j])
    decreases |s|
  {
    if s == {} then []
    else
      var m := MinElement(s);
      var rest := SortedElements(s - {m});
      var r := [m] + rest;
      assert forall i, j :: 0 <= i < j < |r| ==> StrLess(r[i], r[j]) by {
        forall i, j | 0 <= i < j < |r|
          ensures StrLess(r[i], r[j])
        {
          if i == 0 {
            assert r[j] == rest[j - 1];
            assert rest[j - 1] in rest;
          } else {
            assert r[i] == rest[i - 1] && r[j] == rest[j - 1];
          }
        }
      }
      r
  }

  // ---------------------------------------------------------------------------
  // Recipe stacks by slot role

  datatype RecipeStacks = RecipeStacks(inputs: seq<Stack>, outputs: seq<Stack>, catalysts: seq<Stack>)

  /** `stacks.filter((s) => s.kind === 'item')` */
  function ItemStacksOnly(ss: seq<Stack>): (r: seq<Stack>)
    ensures forall i :: 0 <= i < |r| ==> r[i].ItemStack?
  {
    if |ss| == 0 then []
    else (if ss[0].ItemStack? then [ss[0]] else []) + ItemStacksOnly(ss[1..])
  }

  predicate AllItems(ss: seq<Stack>) {
    forall i :: 0 <= i < |ss| ==> ss[i].ItemStack?
  }

  /** The loop over `Object.keys(recipe.slotContents)` appending each slot's stacks by role. */
  function ExtractSlots(entries: seq<SlotEntry>, rt: Option<RecipeTypeDef>, acc: RecipeStacks): (r: RecipeStacks)
    requires AllItems(acc.catalysts)
    ensures AllItems(r.catalysts)
    decreases |entries|
  {
    if |entries| == 0 then acc
    else
      var e := entries[0];
      var io := SlotIo(rt, e.slotId);
      var next :=
        if io == Output then acc.(outputs := acc.outputs + e.stacks)
        else if io == Catalyst then acc.(catalysts := acc.catalysts + ItemStacksOnly(e.stacks))
        else acc.(inputs := acc.inputs + e.stacks);
      ExtractSlots(entries[1..], rt, next)
  }

  /** `extractRecipeStacks(recipe, recipeType)`: only item stacks are kept as catalysts. */
  function ExtractRecipeStacks(recipe: Recipe, rt: Option<RecipeTypeDef>): (r: RecipeStacks)
    ensures AllItems(r.catalysts)
  {
    ExtractSlots(recipe.slotContents, rt, RecipeStacks([], [], []))
  }

  // ---------------------------------------------------------------------------
  // Matching a stack against an item key

  /** `stack.meta !== key.meta` is false: strict equality, so NaN never matches and 5 is not "5". */
  predicate MetaMatches(stackMeta: Option<Meta>, keyMeta: Meta) {
    match stackMeta
    case None => false
    case Some(m) =>
      match (m, keyMeta)
      case (MetaNum(a), MetaNum(b)) => NumberEq(a, b)
      case (MetaStr(a), MetaStr(b)) => a == b
      case _ => false
  }

  /** `JSON.stringify(stack.nbt) === JSON.stringify(key.nbt)`, a thrown TypeError counting as no match. */
  predicate NbtMatches(stackNbt: JsValue, keyNbt: JsValue) {
    var a := Stringify(stackNbt);
    var b := Stringify(keyNbt);
    !a.TypeError? && !b.TypeError? && a == b
  }

  /** `stackMatchesKey(stack, key)` */
  predicate StackMatchesKey(s: Stack, key: ItemKey)
    requires s.ItemStack?
  {
    s.id == key.id
    && (key.meta.None? || MetaMatches(s.meta, key.meta.value))
    && (key.nbt.JUndefined? || NbtMatches(s.nbt, key.nbt))
  }

  /** The finite amounts of the item stacks matching `key`, added up. */
  function SumMatching(ss: seq<Stack>, key: ItemKey): real
    decreases |ss|
  {
    if |ss| == 0 then 0.0
    else
      (if ss[0].ItemStack? && StackMatchesKey(ss[0], key) then FiniteOr(ss[0].amount, 0.0) else 0.0)
      + SumMatching(ss[1..], key)
  }

  /** `perCraftOutputAmountFor(recipe, recipeType, itemKey)` */
  function PerCraftOutputAmountFor(recipe: Recipe, rt: Option<RecipeTypeDef>, key: ItemKey): real {
    SumMatching(ExtractRecipeStacks(recipe, rt).outputs, key)
  }

  /** `perCraftInputAmountFor(recipe, recipeType, itemKey)` */
  function PerCraftInputAmountFor(recipe: Recipe, rt: Option<RecipeTypeDef>, key: ItemKey): real {
    SumMatching(ExtractRecipeStacks(recipe, rt).inputs, key)
  }

  // ---------------------------------------------------------------------------
  // The planner's arguments and the recipe it picks for an item

  /** The arguments shared by both entry points; `maxDepth` defaults to 20. */
  datatype PlanCtx = PlanCtx(
    ns: string,
    index: JeiIndex,
    selectedRecipe: map<string, string>,
    selectedItem: map<string, string>,
    maxDepth: int)

  function MakeCtx(pack: PackData, index: JeiIndex, selectedRecipe: map<string, string>,
                   selectedItem: map<string, string>, maxDepth: Option<int>): PlanCtx
  {
    PlanCtx(pack.gameId, index, selectedRecipe, selectedItem, maxDepth.GetOr(20))
  }

  /**
   * `selected.get(h) ?? (options.length === 1 ? options[0] : undefined)`, kept only when
   * truthy: a selection of "" is not replaced by the single option.
   */
  function ChosenRecipeId(c: PlanCtx, key: ItemKey): (r: Option<string>)
    ensures r.Some? ==> r.value != ""
  {
    var h := ItemKeyHash(key);
    var options := RecipesProducingItem(c.index, key);
    var chosen :=
      if h in c.selectedRecipe then Some(c.selectedRecipe[h])
      else if |options| == 1 then Some(MinElement(options))
      else None;
    if Present(chosen) then chosen else None
  }

  datatype Chosen = Chosen(recipeId: string, recipe: Recipe, rtype: Option<RecipeTypeDef>)

  /** `getChosenRecipe(key)`: the chosen id, the recipe it names, and that recipe's type. */
  function GetChosenRecipe(c: PlanCtx, key: ItemKey): (r: Option<Chosen>)
    ensures r.Some? ==> ChosenRecipeId(c, key) == Some(r.value.recipeId)
    ensures r.Some? ==> r.value.recipeId in c.index.recipesById && c.index.recipesById[r.value.recipeId] == r.value.recipe
  {
    match ChosenRecipeId(c, key)
    case None => None
    case Some(id) =>
      if id !in c.index.recipesById then None
      else
        var recipe := c.index.recipesById[id];
        Some(Chosen(id, recipe, BuildIndex.Lookup(c.index.recipeTypesByKey, recipe.rtype)))
  }

  /** How many more depth levels may still be expanded. */
  function Remaining(c: PlanCtx, depth: nat): nat {
    if depth > c.maxDepth then 0 else c.maxDepth - depth + 1
  }

  // ---------------------------------------------------------------------------
  // computePlannerDecisions

  datatype Decision =
    | ItemRecipe(itemKey: ItemKey, itemKeyHash: string, recipeOptions: set<string>)
    | TagItem(tagId: string, candidateItemIds: seq<string>)

  /** `visitItem(key, depth)` */
  function VisitItem(c: PlanCtx, key: ItemKey, depth: nat, visiting: set<string>): seq<Decision>
    decreases Remaining(c, depth), 1, 0
  {
    if depth > c.maxDepth then []
    else
      var h := ItemKeyHash(key);
      if h in visiting then []
      else
        var options := RecipesProducingItem(c.index, key);
        if |options| > 1 && h !in c.selectedRecipe then [ItemRecipe(key, h, options)]
        else
          match GetChosenRecipe(c, key)
          case None => []
          case Some(ch) => VisitInputs(c, ExtractRecipeStacks(ch.recipe, ch.rtype).inputs, depth, visiting + {h})
  }

  /** The loop over a chosen recipe's inputs: items and tags are visited one level deeper. */
  function VisitInputs(c: PlanCtx, inputs: seq<Stack>, depth: nat, visiting: set<string>): seq<Decision>
    requires depth <= c.maxDepth
    decreases Remaining(c, depth), 0, |inputs|
  {
    if |inputs| == 0 then []
    else
      var first :=
        match inputs[0]
        case ItemStack(_, _, _, _, _) => VisitItem(c, StackItemToItemKey(inputs[0]), depth + 1, visiting)
        case TagStack(id, _, _) => VisitTag(c, id, depth + 1, visiting)
        case FluidStack(_, _, _) => [];
      first + VisitInputs(c, inputs[1..], depth, visiting)
  }

  /** `visitTag(tag, depth)` */
  function VisitTag(c: PlanCtx, tagId: string, depth: nat, visiting: set<string>): seq<Decision>
    decreases Remaining(c, depth), 2, 0
  {
    if depth > c.maxDepth then []
    else
      var normalized := NormalizeTagId(tagId, c.ns);
      var candidates := SortedElements(GetSet(c.index.tags.itemIdsByTagId, normalized));
      if |candidates| == 0 then [TagItem(normalized, [])]
      else if |candidates| > 1 && normalized !in c.selectedItem then [TagItem(normalized, candidates)]
      else
        var chosen := if normalized in c.selectedItem then c.selectedItem[normalized] else candidates[0];
        if chosen == "" then [] else VisitItem(c, BareKey(chosen), depth + 1, visiting)
  }

  /** `computePlannerDecisions(args)` */
  function ComputePlannerDecisions(pack: PackData, index: JeiIndex, rootKey: ItemKey,
                                   selectedRecipe: map<string, string>, selectedItem: map<string, string>,
                                   maxDepth: Option<int>): seq<Decision>
  {
    VisitItem(MakeCtx(pack, index, selectedRecipe, selectedItem, maxDepth), rootKey, 0, {})
  }

  // ---------------------------------------------------------------------------
  // The requirement tree

  /**
   * The optional numbers an enhanced node carries for the production line view; the
   * planner itself leaves them all absent.
   */
  datatype Extras = Extras(
    cycleSeedAmount: Option<real>,
    cycleAmountNeeded: Option<real>,
    machineCount: Option<real>,
    machines: Option<real>)

  const NoExtras := Extras(None, None, None, None)

  /** `RequirementNode`; `num` is the counter value of the node's id `n<num>`. */
  datatype Node =
    | ItemNode(
        num: nat,
        itemKey: ItemKey,
        amount: real,
        recipeIdUsed: Option<string>,
        recipeTypeKeyUsed: Option<string>,
        machineItemId: Option<string>,
        machineName: Option<string>,
        children: seq<Node>,
        catalysts: seq<Stack>,
        cycle: bool,
        cycleSeed: bool,
        extras: Extras)
    | FluidNode(num: nat, id: string, amount: real, unit: Option<string>)

  function NodeId(n: Node): string {
    "n" + NatText(n.num)
  }

  /** The counter and the three totals maps of `buildRequirementTree`. */
  datatype TreeState = TreeState(
    counter: nat,
    leafItems: map<string, real>,
    leafFluids: map<string, real>,
    catalysts: map<string, real>)

  /** `m.get(k) ?? 0` */
  function GetOr0(m: map<string, real>, k: string): real {
    if k in m then m[k] else 0.0
  }

  function Max(a: real, b: real): real {
    if a >= b then a else b
  }

  function AddLeafItem(st: TreeState, id: string, amount: real): (r: TreeState)
    ensures r.counter == st.counter && r.leafFluids == st.leafFluids && r.catalysts == st.catalysts
  {
    st.(leafItems := st.leafItems[id := GetOr0(st.leafItems, id) + amount])
  }

  function AddLeafFluid(st: TreeState, id: string, amount: real): (r: TreeState)
    ensures r.counter == st.counter && r.leafItems == st.leafItems && r.catalysts == st.catalysts
  {
    st.(leafFluids := st.leafFluids[id := GetOr0(st.leafFluids, id) + amount])
  }

  /** `recipeCatalysts.forEach((c) => addCatalyst(c.id, finiteNumberOr(c.amount, 0)))` */
  function AddCatalysts(st: TreeState, cs: seq<Stack>): (r: TreeState)
    ensures r.counter == st.counter && r.leafItems == st.leafItems && r.leafFluids == st.leafFluids
    decreases |cs|
  {
    if |cs| == 0 then st
    else
      var id := cs[0].id;
      AddCatalysts(st.(catalysts := st.catalysts[id := Max(GetOr0(st.catalysts, id), FiniteOr(cs[0].amount, 0.0))]), cs[1..])
  }

  /** `recipeType?.machine?.id`, when truthy. */
  function MachineItemId(rt: Option<RecipeTypeDef>): (r: Option<string>)
    ensures r.Some? ==> r.value != ""
  {
    if rt.Some? && rt.value.machine.Some? && Present(rt.value.machine.value.id) then rt.value.machine.value.id else None
  }

  /** `recipeType?.machine?.name`, when truthy. */
  function MachineName(rt: Option<RecipeTypeDef>): (r: Option<string>)
    ensures r.Some? ==> r.value != ""
  {
    if rt.Some? && rt.value.machine.Some? && Present(rt.value.machine.value.name) then rt.value.machine.value.name else None
  }

  function PathHashes(path: seq<ItemKey>): (r: seq<string>)
    ensures |r| == |path|
    ensures forall i :: 0 <= i < |path| ==> r[i] == ItemKeyHash(path[i])
  {
    if |path| == 0 then [] else [ItemKeyHash(path[0])] + PathHashes(path[1..])
  }

  /** `xs.indexOf(x)`: the first position of `x`, or -1. */
  function IndexOf(xs: seq<string>, x: string): (r: int)
    ensures -1 <= r < |xs|
    ensures r == -1 <==> x !in xs
    ensures r >= 0 ==> xs[r] == x && forall j :: 0 <= j < r ==> xs[j] != x
  {
    if |xs| == 0 then -1
    else if xs[0] == x then 0
    else
      var r := IndexOf(xs[1..], x);
      if r == -1 then -1 else r + 1
  }

  /** `stackKeys.slice(stackHashes.indexOf(h))`: the keys from the first occurrence of `h` on. */
  function CycleKeys(path: seq<ItemKey>, h: string): seq<ItemKey> {
    var i := IndexOf(PathHashes(path), h);
    if i >= 0 then path[i..] else []
  }

  /**
   * Step `i` of `cycleFactor`'s loop: the chosen recipe of `keys[i]` turns one craft's output
   * of `keys[i]` into what it asks of the next key (wrapping round), as `out / inp`. None
   * when there is no chosen recipe or either amount is not positive.
   */
  function StepRatio(c: PlanCtx, keys: seq<ItemKey>, i: nat): (r: Option<real>)
    requires i < |keys|
    ensures r.Some? ==> r.value > 0.0
  {
    var toKey := if i + 1 < |keys| then keys[i + 1] else keys[0];
    match GetChosenRecipe(c, keys[i])
    case None => None
    case Some(ch) =>
      var out := PerCraftOutputAmountFor(ch.recipe, ch.rtype, keys[i]);
      var inp := PerCraftInputAmountFor(ch.recipe, ch.rtype, toKey);
      if out <= 0.0 || inp <= 0.0 then None else Some(out / inp)
  }

  /** Every step of `cycleFactor`'s loop, in order. */
  function CycleSteps(c: PlanCtx, keys: seq<ItemKey>): (r: seq<Option<real>>)
    ensures |r| == |keys|
    ensures forall i :: 0 <= i < |keys| ==> r[i] == StepRatio(c, keys, i)
    ensures forall i :: 0 <= i < |r| && r[i].Some? ==> r[i].value > 0.0
  {
    seq(|keys|, i requires 0 <= i < |keys| => StepRatio(c, keys, i))
  }

  /** The loop of `cycleFactor` over the remaining steps; a failing step makes the factor 0. */
  function FoldFactor(steps: seq<Option<real>>, factor: real): real {
    if |steps| == 0 then factor
    else
      match steps[0]
      case None => 0.0
      case Some(ratio) => FoldFactor(steps[1..], factor * ratio)
  }

  /** `cycleFactor`: the gain of one trip round the cycle, 0 for an empty cycle. */
  function CycleFactor(c: PlanCtx, keys: seq<ItemKey>): real {
    if |keys| == 0 then 0.0 else FoldFactor(CycleSteps(c, keys), 1.0)
  }

  /** `seedFromPredecessor`: what the last item on the cycle consumes of `key` per craft. */
  function SeedFromPredecessor(c: PlanCtx, keys: seq<ItemKey>, key: ItemKey): real {
    if |keys| == 0 then 0.0
    else
      match GetChosenRecipe(c, keys[|keys| - 1])
      case None => 0.0
      case Some(ch) => PerCraftInputAmountFor(ch.recipe, ch.rtype, key)
  }

  /** A cycle grows when one trip round it yields more than it started with. */
  predicate Growth(factor: real) {
    factor > 1.000001
  }

  /** The node for an item met again while it is already being expanded. */
  function CycleNode(c: PlanCtx, num: nat, key: ItemKey, amountNeeded: real, path: seq<ItemKey>): (n: Node)
    ensures n.ItemNode? && n.cycle && n.children == [] && n.catalysts == [] && n.num == num && n.itemKey == key
  {
    var keys := CycleKeys(path, ItemKeyHash(key));
    var growth := Growth(CycleFactor(c, keys));
    var seed := SeedFromPredecessor(c, keys, key);
    var amount := if growth && seed > 0.0 then seed else amountNeeded;
    var chosen := GetChosenRecipe(c, key);
    ItemNode(
      num, key, amount,
      if chosen.Some? then Some(chosen.value.recipeId) else None,
      if chosen.Some? && chosen.value.recipe.rtype != "" then Some(chosen.value.recipe.rtype) else None,
      if chosen.Some? then MachineItemId(chosen.value.rtype) else None,
      if chosen.Some? then MachineName(chosen.value.rtype) else None,
      [], [], true, growth, NoExtras)
  }

  /** A leaf for an item that is not expanded (depth limit, no recipe chosen, or an unknown recipe). */
  function LeafNode(num: nat, key: ItemKey, amount: real): Node {
    ItemNode(num, key, amount, None, None, None, None, [], [], false, false, NoExtras)
  }

  /** `buildForItem(key, amountNeeded, depth)`, with `path` the keys being expanded above it. */
  function BuildForItem(c: PlanCtx, key: ItemKey, amountNeeded: real, depth: nat, path: seq<ItemKey>, st: TreeState): (r: (Node, TreeState))
    ensures r.0.ItemNode? && r.0.itemKey == key
    ensures r.0.num == st.counter + 1 && r.1.counter >= r.0.num
    ensures !r.0.cycle ==> r.0.amount == amountNeeded
    ensures r.0.cycle ==> ItemKeyHash(key) in PathHashes(path) && r.0.children == []
    ensures depth <= c.maxDepth && ItemKeyHash(key) in PathHashes(path) ==> r.0.cycle
    decreases Remaining(c, depth), 2, 0
  {
    var num := st.counter + 1;
    var st1 := st.(counter := num);
    if depth > c.maxDepth then
      (LeafNode(num, key, amountNeeded), AddLeafItem(st1, key.id, amountNeeded))
    else
      var h := ItemKeyHash(key);
      if h in PathHashes(path) then
        var n := CycleNode(c, num, key, amountNeeded, path);
        (n, AddLeafItem(st1, key.id, n.amount))
      else
        match GetChosenRecipe(c, key)
        case None => (LeafNode(num, key, amountNeeded), AddLeafItem(st1, key.id, amountNeeded))
        case Some(ch) => Expand(c, key, amountNeeded, depth, path, st1, ch)
  }

  /** `amountNeeded / perCraftYield` when the recipe yields the item, else 0. */
  function Multiplier(c: PlanCtx, key: ItemKey, amountNeeded: real, ch: Chosen): real {
    var perCraftYield := PerCraftOutputAmountFor(ch.recipe, ch.rtype, key);
    if perCraftYield > 0.0 then amountNeeded / perCraftYield else 0.0
  }

  /**
   * The expansion of an item through its chosen recipe: the recipe's catalysts are
   * recorded, then its inputs become the children, one level deeper with `key` on the path.
   * `st.counter` already counts this node.
   */
  function Expand(c: PlanCtx, key: ItemKey, amountNeeded: real, depth: nat, path: seq<ItemKey>, st: TreeState, ch: Chosen): (r: (Node, TreeState))
    requires depth <= c.maxDepth
    ensures r.0.ItemNode? && r.0.itemKey == key && r.0.num == st.counter && r.1.counter >= st.counter
    ensures !r.0.cycle && r.0.amount == amountNeeded && r.0.recipeIdUsed == Some(ch.recipeId)
    decreases Remaining(c, depth), 1, 0
  {
    var stacks := ExtractRecipeStacks(ch.recipe, ch.rtype);
    var built := BuildChildren(c, stacks.inputs, Multiplier(c, key, amountNeeded, ch), depth, path + [key], AddCatalysts(st, stacks.catalysts));
    var n := ItemNode(
      st.counter, key, amountNeeded, Some(ch.recipeId), Some(ch.recipe.rtype),
      MachineItemId(ch.rtype), MachineName(ch.rtype),
      built.0, stacks.catalysts, false, false, NoExtras);
    (n, built.1)
  }

  /** `finiteNumberOr(input.amount, 0) * multiplier`: what the recipe needs of one input. */
  function Needed(input: Stack, multiplier: real): real {
    FiniteOr(input.amount, 0.0) * multiplier
  }

  /** A counted child: a fluid node, or an item node that is not a cycle back-reference. */
  predicate CountedChild(n: Node) {
    n.FluidNode? || !n.cycle
  }

  /**
   * One input of the loop: a positive need becomes an item child, the single or selected
   * item of a tag, or a fluid leaf.
   */
  function BuildInput(c: PlanCtx, input: Stack, multiplier: real, depth: nat, path: seq<ItemKey>, st: TreeState): (r: (Option<Node>, TreeState))
    requires depth <= c.maxDepth
    ensures r.1.counter >= st.counter
    ensures r.0.Some? ==> Needed(input, multiplier) > 0.0
    ensures r.0.Some? && CountedChild(r.0.value) ==> r.0.value.amount == Needed(input, multiplier)
    decreases Remaining(c, depth), 0, 0
  {
    var needed := Needed(input, multiplier);
    if needed <= 0.0 then (None, st)
    else if input.FluidStack? then
      var st1 := AddLeafFluid(st, input.id, needed);
      (Some(FluidNode(st1.counter + 1, input.id, needed, if Present(input.unit) then input.unit else None)), st1.(counter := st1.counter + 1))
    else
      match InputKey(c, input)
      case None => (None, st)
      case Some(k) =>
        var b := BuildForItem(c, k, needed, depth + 1, path, st);
        (Some(b.0), b.1)
  }

  /**
   * The item an item or tag input stands for: the stack's own key, or the bare key of the
   * tag's selected item, or of its only item; none when that is missing or empty.
   */
  function InputKey(c: PlanCtx, input: Stack): (r: Option<ItemKey>)
    requires !input.FluidStack?
    ensures input.ItemStack? ==> r == Some(StackItemToItemKey(input))
    ensures input.TagStack? && NormalizeTagId(input.id, c.ns) in c.selectedItem ==>
      var chosen := c.selectedItem[NormalizeTagId(input.id, c.ns)];
      r == if chosen == "" then None else Some(BareKey(chosen))
    ensures input.TagStack? && NormalizeTagId(input.id, c.ns) !in c.selectedItem ==>
      var candidates := GetSet(c.index.tags.itemIdsByTagId, NormalizeTagId(input.id, c.ns));
      && (|candidates| != 1 ==> r == None)
      && (|candidates| == 1 ==> (r.Some? <==> "" !in candidates))
      && (r.Some? ==> r.value == BareKey(r.value.id) && r.value.id in candidates)
  {
    if input.ItemStack? then Some(StackItemToItemKey(input))
    else
      var normalized := NormalizeTagId(input.id, c.ns);
      var candidates := GetSet(c.index.tags.itemIdsByTagId, normalized);
      var chosen :=
        if normalized in c.selectedItem then c.selectedItem[normalized]
        else if |candidates| == 1 then MinElement(candidates)
        else "";
      if chosen == "" then None else Some(BareKey(chosen))
  }

  /** The loop over a recipe's inputs, collecting the children in input order. */
  function BuildChildren(c: PlanCtx, inputs: seq<Stack>, multiplier: real, depth: nat, path: seq<ItemKey>, st: TreeState): (r: (seq<Node>, TreeState))
    requires depth <= c.maxDepth
    ensures r.1.counter >= st.counter
    ensures forall i :: 0 <= i < |r.0| && CountedChild(r.0[i]) ==>
      r.0[i].amount > 0.0 && exists j :: 0 <= j < |inputs| && r.0[i].amount == Needed(inputs[j], multiplier)
    decreases Remaining(c, depth), 0, |inputs|
  {
    if |inputs| == 0 then ([], st)
    else
      var first := BuildInput(c, inputs[0], multiplier, depth, path, st);
      var rest := BuildChildren(c, inputs[1..], multiplier, depth, path, first.1);
      assert forall j :: 0 < j < |inputs| ==> inputs[j] == inputs[1..][j - 1];
      if first.0.Some? then ([first.0.value] + rest.0, rest.1) else rest
  }

  datatype BuildTreeResult = BuildTreeResult(
    root: Node,
    leafItemTotals: map<string, real>,
    leafFluidTotals: map<string, real>,
    catalysts: map<string, real>)

  /** `buildRequirementTree(args)`: the target defaults to 1 when not finite. */
  function BuildRequirementTree(pack: PackData, index: JeiIndex, rootKey: ItemKey, targetAmount: JsNumber,
                                selectedRecipe: map<string, string>, selectedItem: map<string, string>,
                                maxDepth: Option<int>): (r: BuildTreeResult)
    ensures r.root.ItemNode? && r.root.itemKey == rootKey && NodeId(r.root) == "n1"
    ensures !r.root.cycle && r.root.amount == FiniteOr(targetAmount, 1.0)
  {
    var c := MakeCtx(pack, index, selectedRecipe, selectedItem, maxDepth);
    var b := BuildForItem(c, rootKey, FiniteOr(targetAmount, 1.0), 0, [], TreeState(0, map[], map[], map[]));
    BuildTreeResult(b.0, b.1.leafItems, b.1.leafFluids, b.1.catalysts)
  }
}
