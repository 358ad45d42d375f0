// Properties of the requirement tree: the totals maps agree with sums over the tree's
// leaves, fluids and catalysts, and node numbers run consecutively in preorder.
module PlannerTree {
  import opened Wrappers
  import opened JsValues
  import opened PackTypes
  import opened Key
  import opened TagResolve
  import opened BuildIndex
  import opened Planner

  // ---------------------------------------------------------------------------
  // Reference sums over a tree

  /** An item node that was not expanded: no recipe was used, or it closes a cycle. */
  predicate IsLeafItem(n: Node) {
    n.ItemNode? && (n.recipeIdUsed.None? || n.cycle)
  }

  /** The amounts of the leaf item nodes with item id `id`. */
  function LeafItemSum(n: Node, id: string): real
    decreases n, 1
  {
    match n
    case FluidNode(_, _, _, _) => 0.0
    case ItemNode(_, _, _, _, _, _, _, children, _, _, _, _) =>
      (if IsLeafItem(n) && n.itemKey.id == id then n.amount else 0.0) + ChildrenLeafItemSum(children, id)
  }

  function ChildrenLeafItemSum(cs: seq<Node>, id: string): real
    decreases cs, 0
  {
    if |cs| == 0 then 0.0 else LeafItemSum(cs[0], id) + ChildrenLeafItemSum(cs[1..], id)
  }

  /** The amounts of the fluid nodes with fluid id `id`. */
  function FluidSum(n: Node, id: string): real
    decreases n, 1
  {
    match n
    case FluidNode(_, fid, amount, _) => if fid == id then amount else 0.0
    case ItemNode(_, _, _, _, _, _, _, children, _, _, _, _) => ChildrenFluidSum(children, id)
  }

  function ChildrenFluidSum(cs: seq<Node>, id: string): real
    decreases cs, 0
  {
    if |cs| == 0 then 0.0 else FluidSum(cs[0], id) + ChildrenFluidSum(cs[1..], id)
  }

  /** The largest finite amount among catalyst stacks with id `id`, and at least 0. */
  function StacksMax(cs: seq<Stack>, id: string): (r: real)
    ensures r >= 0.0
    decreases |cs|
  {
    if |cs| == 0 then 0.0
    else Max(if cs[0].id == id then FiniteOr(cs[0].amount, 0.0) else 0.0, StacksMax(cs[1..], id))
  }

  /** The largest catalyst amount for `id` over every node's recipe catalysts, and at least 0. */
  function CatalystMax(n: Node, id: string): (r: real)
    ensures r >= 0.0
    decreases n, 1
  {
    match n
    case FluidNode(_, _, _, _) => 0.0
    case ItemNode(_, _, _, _, _, _, _, children, catalysts, _, _, _) =>
      Max(StacksMax(catalysts, id), ChildrenCatalystMax(children, id))
  }

  function ChildrenCatalystMax(cs: seq<Node>, id: string): (r: real)
    ensures r >= 0.0
    decreases cs, 0
  {
    if |cs| == 0 then 0.0 else Max(CatalystMax(cs[0], id), ChildrenCatalystMax(cs[1..], id))
  }

  /** The node numbers of a tree in preorder. */
  function Nums(n: Node): seq<nat>
    decreases n, 1
  {
    match n
    case FluidNode(num, _, _, _) => [num]
    case ItemNode(num, _, _, _, _, _, _, children, _, _, _, _) => [num] + ChildrenNums(children)
  }

  function ChildrenNums(cs: seq<Node>): seq<nat>
    decreases cs, 0
  {
    if |cs| == 0 then [] else Nums(cs[0]) + ChildrenNums(cs[1..])
  }

  /** The numbers `lo, lo + 1, ..., hi - 1`. */
  function Range(lo: nat, hi: nat): (r: seq<nat>)
    ensures |r| == if lo <= hi then hi - lo else 0
    decreases hi - lo
  {
    if lo >= hi then [] else [lo] + Range(lo + 1, hi)
  }

  lemma {:induction false} RangeSplit(lo: nat, mid: nat, hi: nat)
    requires lo <= mid <= hi
    ensures Range(lo, mid) + Range(mid, hi) == Range(lo, hi)
    decreases mid - lo
  {
    if lo < mid {
      RangeSplit(lo + 1, mid, hi);
      assert Range(lo, mid) + Range(mid, hi) == [lo] + (Range(lo + 1, mid) + Range(mid, hi));
    }
  }

  // ---------------------------------------------------------------------------
  // Leaf item totals

  /** An unexpanded item node contributes its own amount and nothing else. */
  lemma LeafNodeSums(n: Node, id: string)
    requires IsLeafItem(n) && n.children == []
    ensures LeafItemSum(n, id) == if n.itemKey.id == id then n.amount else 0.0
  {
  }

  /** The three outcomes of `buildForItem` that add the node itself as a leaf. */
  lemma ForItemLeafCase(c: PlanCtx, key: ItemKey, amount: real, depth: nat, path: seq<ItemKey>, st: TreeState)
    requires depth > c.maxDepth || ItemKeyHash(key) in PathHashes(path) || GetChosenRecipe(c, key).None?
    ensures var r := BuildForItem(c, key, amount, depth, path, st);
      IsLeafItem(r.0) && r.0.children == [] && r.1 == AddLeafItem(st.(counter := st.counter + 1), key.id, r.0.amount)
  {
  }

  /** Otherwise `buildForItem` expands the item through its chosen recipe. */
  lemma ForItemExpandCase(c: PlanCtx, key: ItemKey, amount: real, depth: nat, path: seq<ItemKey>, st: TreeState)
    requires !(depth > c.maxDepth || ItemKeyHash(key) in PathHashes(path) || GetChosenRecipe(c, key).None?)
    ensures BuildForItem(c, key, amount, depth, path, st)
      == Expand(c, key, amount, depth, path, st.(counter := st.counter + 1), GetChosenRecipe(c, key).value)
  {
  }

  /** One step of the loop over a recipe's inputs. */
  lemma ChildrenCons(c: PlanCtx, inputs: seq<Stack>, multiplier: real, depth: nat, path: seq<ItemKey>, st: TreeState)
    requires depth <= c.maxDepth && |inputs| > 0
    ensures var first := BuildInput(c, inputs[0], multiplier, depth, path, st);
      var rest := BuildChildren(c, inputs[1..], multiplier, depth, path, first.1);
      BuildChildren(c, inputs, multiplier, depth, path, st) == (if first.0.Some? then ([first.0.value] + rest.0, rest.1) else rest)
  {
  }

  lemma NodesCons(f: Node, rest: seq<Node>)
    ensures |[f] + rest| > 0 && ([f] + rest)[0] == f && ([f] + rest)[1..] == rest
  {
  }

  /** An expanded node's children and final state are those of the loop over the recipe's inputs. */
  lemma ExpandShape(c: PlanCtx, key: ItemKey, amount: real, depth: nat, path: seq<ItemKey>, st: TreeState, ch: Chosen)
    requires depth <= c.maxDepth
    ensures var stacks := ExtractRecipeStacks(ch.recipe, ch.rtype);
      var built := BuildChildren(c, stacks.inputs, Multiplier(c, key, amount, ch), depth, path + [key], AddCatalysts(st, stacks.catalysts));
      var r := Expand(c, key, amount, depth, path, st, ch);
      r.0.ItemNode? && r.0.num == st.counter && r.0.children == built.0 && r.1 == built.1 && r.0.catalysts == stacks.catalysts
      && AddCatalysts(st, stacks.catalysts).counter == st.counter
  {
  }

  lemma {:induction false} ForItemLeafItems(c: PlanCtx, key: ItemKey, amount: real, depth: nat, path: seq<ItemKey>, st: TreeState, id: string)
    ensures GetOr0(BuildForItem(c, key, amount, depth, path, st).1.leafItems, id)
      == GetOr0(st.leafItems, id) + LeafItemSum(BuildForItem(c, key, amount, depth, path, st).0, id)
    decreases Remaining(c, depth), 2, 0
  {
    var r := BuildForItem(c, key, amount, depth, path, st);
    var st1 := st.(counter := st.counter + 1);
    if depth > c.maxDepth || ItemKeyHash(key) in PathHashes(path) || GetChosenRecipe(c, key).None? {
      ForItemLeafCase(c, key, amount, depth, path, st);
      LeafNodeSums(r.0, id);
    } else {
      ForItemExpandCase(c, key, amount, depth, path, st);
      ExpandLeafItems(c, key, amount, depth, path, st1, GetChosenRecipe(c, key).value, id);
    }
  }

  lemma {:induction false} ExpandLeafItems(c: PlanCtx, key: ItemKey, amount: real, depth: nat, path: seq<ItemKey>, st: TreeState, ch: Chosen, id: string)
    requires depth <= c.maxDepth
    ensures GetOr0(Expand(c, key, amount, depth, path, st, ch).1.leafItems, id)
      == GetOr0(st.leafItems, id) + LeafItemSum(Expand(c, key, amount, depth, path, st, ch).0, id)
    decreases Remaining(c, depth), 1, 0
  {
    var stacks := ExtractRecipeStacks(ch.recipe, ch.rtype);
    ChildrenLeafItems(c, stacks.inputs, Multiplier(c, key, amount, ch), depth, path + [key], AddCatalysts(st, stacks.catalysts), id);
  }

  lemma {:induction false} InputLeafItems(c: PlanCtx, input: Stack, multiplier: real, depth: nat, path: seq<ItemKey>, st: TreeState, id: string)
    requires depth <= c.maxDepth
    ensures var r := BuildInput(c, input, multiplier, depth, path, st);
      GetOr0(r.1.leafItems, id) == GetOr0(st.leafItems, id) + (if r.0.Some? then LeafItemSum(r.0.value, id) else 0.0)
    decreases Remaining(c, depth), 0, 0
  {
    var needed := Needed(input, multiplier);
    if needed > 0.0 && !input.FluidStack? && InputKey(c, input).Some? {
      ForItemLeafItems(c, InputKey(c, input).value, needed, depth + 1, path, st, id);
    }
  }

  lemma {:induction false} ChildrenLeafItems(c: PlanCtx, inputs: seq<Stack>, multiplier: real, depth: nat, path: seq<ItemKey>, st: TreeState, id: string)
    requires depth <= c.maxDepth
    ensures var r := BuildChildren(c, inputs, multiplier, depth, path, st);
      GetOr0(r.1.leafItems, id) == GetOr0(st.leafItems, id) + ChildrenLeafItemSum(r.0, id)
    decreases Remaining(c, depth), 0, |inputs|
  {
    if |inputs| > 0 {
      var first := BuildInput(c, inputs[0], multiplier, depth, path, st);
      ChildrenCons(c, inputs, multiplier, depth, path, st);
      InputLeafItems(c, inputs[0], multiplier, depth, path, st, id);
      ChildrenLeafItems(c, inputs[1..], multiplier, depth, path, first.1, id);
      if first.0.Some? {
        NodesCons(first.0.value, BuildChildren(c, inputs[1..], multiplier, depth, path, first.1).0);
      }
    }
  }

  // ---------------------------------------------------------------------------
  // Leaf fluid totals

  lemma {:induction false} ForItemFluids(c: PlanCtx, key: ItemKey, amount: real, depth: nat, path: seq<ItemKey>, st: TreeState, id: string)
    ensures GetOr0(BuildForItem(c, key, amount, depth, path, st).1.leafFluids, id)
      == GetOr0(st.leafFluids, id) + FluidSum(BuildForItem(c, key, amount, depth, path, st).0, id)
    decreases Remaining(c, depth), 2, 0
  {
    if depth > c.maxDepth || ItemKeyHash(key) in PathHashes(path) || GetChosenRecipe(c, key).None? {
      ForItemLeafCase(c, key, amount, depth, path, st);
    } else {
      ForItemExpandCase(c, key, amount, depth, path, st);
      ExpandFluids(c, key, amount, depth, path, st.(counter := st.counter + 1), GetChosenRecipe(c, key).value, id);
    }
  }

  lemma {:induction false} ExpandFluids(c: PlanCtx, key: ItemKey, amount: real, depth: nat, path: seq<ItemKey>, st: TreeState, ch: Chosen, id: string)
    requires depth <= c.maxDepth
    ensures GetOr0(Expand(c, key, amount, depth, path, st, ch).1.leafFluids, id)
      == GetOr0(st.leafFluids, id) + FluidSum(Expand(c, key, amount, depth, path, st, ch).0, id)
    decreases Remaining(c, depth), 1, 0
  {
    var stacks := ExtractRecipeStacks(ch.recipe, ch.rtype);
    ChildrenFluids(c, stacks.inputs, Multiplier(c, key, amount, ch), depth, path + [key], AddCatalysts(st, stacks.catalysts), id);
  }

  lemma {:induction false} InputFluids(c: PlanCtx, input: Stack, multiplier: real, depth: nat, path: seq<ItemKey>, st: TreeState, id: string)
    requires depth <= c.maxDepth
    ensures var r := BuildInput(c, input, multiplier, depth, path, st);
      GetOr0(r.1.leafFluids, id) == GetOr0(st.leafFluids, id) + (if r.0.Some? then FluidSum(r.0.value, id) else 0.0)
    decreases Remaining(c, depth), 0, 0
  {
    var needed := Needed(input, multiplier);
    if needed > 0.0 && !input.FluidStack? && InputKey(c, input).Some? {
      ForItemFluids(c, InputKey(c, input).value, needed, depth + 1, path, st, id);
    }
  }

  lemma {:induction false} ChildrenFluids(c: PlanCtx, inputs: seq<Stack>, multiplier: real, depth: nat, path: seq<ItemKey>, st: TreeState, id: string)
    requires depth <= c.maxDepth
    ensures var r := BuildChildren(c, inputs, multiplier, depth, path, st);
      GetOr0(r.1.leafFluids, id) == GetOr0(st.leafFluids, id) + ChildrenFluidSum(r.0, id)
    decreases Remaining(c, depth), 0, |inputs|
  {
    if |inputs| > 0 {
      var first := BuildInput(c, inputs[0], multiplier, depth, path, st);
      ChildrenCons(c, inputs, multiplier, depth, path, st);
      InputFluids(c, inputs[0], multiplier, depth, path, st, id);
      ChildrenFluids(c, inputs[1..], multiplier, depth, path, first.1, id);
      if first.0.Some? {
        NodesCons(first.0.value, BuildChildren(c, inputs[1..], multiplier, depth, path, first.1).0);
      }
    }
  }

  // ---------------------------------------------------------------------------
  // Catalyst maxima

  lemma {:induction false} AddCatalystsMax(st: TreeState, cs: seq<Stack>, id: string)
    requires GetOr0(st.catalysts, id) >= 0.0
    ensures GetOr0(AddCatalysts(st, cs).catalysts, id) == Max(GetOr0(st.catalysts, id), StacksMax(cs, id))
    decreases |cs|
  {
    if |cs| > 0 {
      var k := cs[0].id;
      var st1 := st.(catalysts := st.catalysts[k := Max(GetOr0(st.catalysts, k), FiniteOr(cs[0].amount, 0.0))]);
      AddCatalystsMax(st1, cs[1..], id);
    }
  }

  lemma {:induction false} ForItemCatalysts(c: PlanCtx, key: ItemKey, amount: real, depth: nat, path: seq<ItemKey>, st: TreeState, id: string)
    requires GetOr0(st.catalysts, id) >= 0.0
    ensures GetOr0(BuildForItem(c, key, amount, depth, path, st).1.catalysts, id)
      == Max(GetOr0(st.catalysts, id), CatalystMax(BuildForItem(c, key, amount, depth, path, st).0, id))
    decreases Remaining(c, depth), 2, 0
  {
    if depth > c.maxDepth || ItemKeyHash(key) in PathHashes(path) || GetChosenRecipe(c, key).None? {
      ForItemLeafCase(c, key, amount, depth, path, st);
    } else {
      ForItemExpandCase(c, key, amount, depth, path, st);
      ExpandCatalysts(c, key, amount, depth, path, st.(counter := st.counter + 1), GetChosenRecipe(c, key).value, id);
    }
  }

  lemma {:induction false} ExpandCatalysts(c: PlanCtx, key: ItemKey, amount: real, depth: nat, path: seq<ItemKey>, st: TreeState, ch: Chosen, id: string)
    requires depth <= c.maxDepth && GetOr0(st.catalysts, id) >= 0.0
    ensures GetOr0(Expand(c, key, amount, depth, path, st, ch).1.catalysts, id)
      == Max(GetOr0(st.catalysts, id), CatalystMax(Expand(c, key, amount, depth, path, st, ch).0, id))
    decreases Remaining(c, depth), 1, 0
  {
    var stacks := ExtractRecipeStacks(ch.recipe, ch.rtype);
    var st2 := AddCatalysts(st, stacks.catalysts);
    AddCatalystsMax(st, stacks.catalysts, id);
    ChildrenCatalysts(c, stacks.inputs, Multiplier(c, key, amount, ch), depth, path + [key], st2, id);
  }

  lemma {:induction false} InputCatalysts(c: PlanCtx, input: Stack, multiplier: real, depth: nat, path: seq<ItemKey>, st: TreeState, id: string)
    requires depth <= c.maxDepth && GetOr0(st.catalysts, id) >= 0.0
    ensures var r := BuildInput(c, input, multiplier, depth, path, st);
      GetOr0(r.1.catalysts, id) == Max(GetOr0(st.catalysts, id), if r.0.Some? then CatalystMax(r.0.value, id) else 0.0)
    decreases Remaining(c, depth), 0, 0
  {
    var needed := Needed(input, multiplier);
    if needed > 0.0 && !input.FluidStack? && InputKey(c, input).Some? {
      ForItemCatalysts(c, InputKey(c, input).value, needed, depth + 1, path, st, id);
    }
  }

  lemma {:induction false} ChildrenCatalysts(c: PlanCtx, inputs: seq<Stack>, multiplier: real, depth: nat, path: seq<ItemKey>, st: TreeState, id: string)
    requires depth <= c.maxDepth && GetOr0(st.catalysts, id) >= 0.0
    ensures var r := BuildChildren(c, inputs, multiplier, depth, path, st);
      GetOr0(r.1.catalysts, id) == Max(GetOr0(st.catalysts, id), ChildrenCatalystMax(r.0, id))
    decreases Remaining(c, depth), 0, |inputs|
  {
    if |inputs| > 0 {
      var first := BuildInput(c, inputs[0], multiplier, depth, path, st);
      ChildrenCons(c, inputs, multiplier, depth, path, st);
      InputCatalysts(c, inputs[0], multiplier, depth, path, st, id);
      ChildrenCatalysts(c, inputs[1..], multiplier, depth, path, first.1, id);
      if first.0.Some? {
        NodesCons(first.0.value, BuildChildren(c, inputs[1..], multiplier, depth, path, first.1).0);
      }
    }
  }

  // ---------------------------------------------------------------------------
  // Node numbering

  /** The number of nodes in a tree. */
  function Size(n: Node): nat
    decreases n, 1
  {
    match n
    case FluidNode(_, _, _, _) => 1
    case ItemNode(_, _, _, _, _, _, _, children, _, _, _, _) => 1 + ChildrenSize(children)
  }

  function ChildrenSize(cs: seq<Node>): nat
    decreases cs, 0
  {
    if |cs| == 0 then 0 else Size(cs[0]) + ChildrenSize(cs[1..])
  }

  /**
   * Preorder numbering, stated locally: a node's first child follows it, and each later
   * child follows the whole subtree of its predecessor.
   */
  predicate WellNumbered(n: Node)
    decreases n, 1
  {
    match n
    case FluidNode(_, _, _, _) => true
    case ItemNode(num, _, _, _, _, _, _, children, _, _, _, _) =>
      (|children| > 0 ==> children[0].num == num + 1) && ChildrenWellNumbered(children)
  }

  predicate ChildrenWellNumbered(cs: seq<Node>)
    decreases cs, 0
  {
    |cs| == 0 || (WellNumbered(cs[0]) && (|cs| > 1 ==> cs[1].num == cs[0].num + Size(cs[0])) && ChildrenWellNumbered(cs[1..]))
  }

  /** A well-numbered tree lists `num, num + 1, ..., num + Size - 1` in preorder. */
  lemma {:induction false} WellNumberedNums(n: Node)
    requires WellNumbered(n)
    ensures Nums(n) == Range(n.num, n.num + Size(n))
    decreases n, 1
  {
    match n
    case FluidNode(_, _, _, _) =>
    case ItemNode(num, _, _, _, _, _, _, children, _, _, _, _) =>
      if |children| > 0 {
        ChildrenWellNumberedNums(children);
      }
  }

  lemma {:induction false} ChildrenWellNumberedNums(cs: seq<Node>)
    requires |cs| > 0 && ChildrenWellNumbered(cs)
    ensures ChildrenNums(cs) == Range(cs[0].num, cs[0].num + ChildrenSize(cs))
    decreases cs, 0
  {
    WellNumberedNums(cs[0]);
    var mid := cs[0].num + Size(cs[0]);
    if |cs| > 1 {
      ChildrenWellNumberedNums(cs[1..]);
    }
    RangeSplit(cs[0].num, mid, cs[0].num + ChildrenSize(cs));
  }

  /** Every node `buildForItem` creates takes one step of the counter. */
  lemma {:induction false} ForItemSize(c: PlanCtx, key: ItemKey, amount: real, depth: nat, path: seq<ItemKey>, st: TreeState)
    ensures var r := BuildForItem(c, key, amount, depth, path, st);
      r.1.counter == st.counter + Size(r.0)
    decreases Remaining(c, depth), 2, 0
  {
    if depth > c.maxDepth || ItemKeyHash(key) in PathHashes(path) || GetChosenRecipe(c, key).None? {
      ForItemLeafCase(c, key, amount, depth, path, st);
    } else {
      ForItemExpandCase(c, key, amount, depth, path, st);
      ExpandSize(c, key, amount, depth, path, st.(counter := st.counter + 1), GetChosenRecipe(c, key).value);
    }
  }

  lemma {:induction false} ExpandSize(c: PlanCtx, key: ItemKey, amount: real, depth: nat, path: seq<ItemKey>, st: TreeState, ch: Chosen)
    requires depth <= c.maxDepth
    ensures var r := Expand(c, key, amount, depth, path, st, ch);
      r.1.counter == st.counter + ChildrenSize(r.0.children)
    decreases Remaining(c, depth), 1, 0
  {
    var stacks := ExtractRecipeStacks(ch.recipe, ch.rtype);
    ExpandShape(c, key, amount, depth, path, st, ch);
    ChildrenSizes(c, stacks.inputs, Multiplier(c, key, amount, ch), depth, path + [key], AddCatalysts(st, stacks.catalysts));
  }

  lemma {:induction false} InputSize(c: PlanCtx, input: Stack, multiplier: real, depth: nat, path: seq<ItemKey>, st: TreeState)
    requires depth <= c.maxDepth
    ensures var r := BuildInput(c, input, multiplier, depth, path, st);
      r.1.counter == st.counter + (if r.0.Some? then Size(r.0.value) else 0)
    decreases Remaining(c, depth), 0, 0
  {
    var needed := Needed(input, multiplier);
    if needed > 0.0 && !input.FluidStack? && InputKey(c, input).Some? {
      ForItemSize(c, InputKey(c, input).value, needed, depth + 1, path, st);
    }
  }

  lemma {:induction false} ChildrenSizes(c: PlanCtx, inputs: seq<Stack>, multiplier: real, depth: nat, path: seq<ItemKey>, st: TreeState)
    requires depth <= c.maxDepth
    ensures var r := BuildChildren(c, inputs, multiplier, depth, path, st);
      r.1.counter == st.counter + ChildrenSize(r.0)
    decreases Remaining(c, depth), 0, |inputs|
  {
    if |inputs| > 0 {
      var first := BuildInput(c, inputs[0], multiplier, depth, path, st);
      ChildrenCons(c, inputs, multiplier, depth, path, st);
      InputSize(c, inputs[0], multiplier, depth, path, st);
      ChildrenSizes(c, inputs[1..], multiplier, depth, path, first.1);
      if first.0.Some? {
        NodesCons(first.0.value, BuildChildren(c, inputs[1..], multiplier, depth, path, first.1).0);
      }
    }
  }

  /** `buildForItem` numbers the nodes it creates in preorder. */
  lemma {:induction false} ForItemNumbered(c: PlanCtx, key: ItemKey, amount: real, depth: nat, path: seq<ItemKey>, st: TreeState)
    ensures WellNumbered(BuildForItem(c, key, amount, depth, path, st).0)
    decreases Remaining(c, depth), 2, 0
  {
    if depth > c.maxDepth || ItemKeyHash(key) in PathHashes(path) || GetChosenRecipe(c, key).None? {
      ForItemLeafCase(c, key, amount, depth, path, st);
    } else {
      ForItemExpandCase(c, key, amount, depth, path, st);
      ExpandNumbered(c, key, amount, depth, path, st.(counter := st.counter + 1), GetChosenRecipe(c, key).value);
    }
  }

  lemma {:induction false} ExpandNumbered(c: PlanCtx, key: ItemKey, amount: real, depth: nat, path: seq<ItemKey>, st: TreeState, ch: Chosen)
    requires depth <= c.maxDepth
    ensures WellNumbered(Expand(c, key, amount, depth, path, st, ch).0)
    decreases Remaining(c, depth), 1, 0
  {
    var stacks := ExtractRecipeStacks(ch.recipe, ch.rtype);
    ExpandShape(c, key, amount, depth, path, st, ch);
    ChildrenNumbered(c, stacks.inputs, Multiplier(c, key, amount, ch), depth, path + [key], AddCatalysts(st, stacks.catalysts));
  }

  lemma {:induction false} InputNumbered(c: PlanCtx, input: Stack, multiplier: real, depth: nat, path: seq<ItemKey>, st: TreeState)
    requires depth <= c.maxDepth
    ensures var r := BuildInput(c, input, multiplier, depth, path, st);
      r.0.Some? ==> r.0.value.num == st.counter + 1 && WellNumbered(r.0.value)
    decreases Remaining(c, depth), 0, 0
  {
    var needed := Needed(input, multiplier);
    if needed > 0.0 && !input.FluidStack? && InputKey(c, input).Some? {
      ForItemNumbered(c, InputKey(c, input).value, needed, depth + 1, path, st);
    }
  }

  lemma {:induction false} ChildrenNumbered(c: PlanCtx, inputs: seq<Stack>, multiplier: real, depth: nat, path: seq<ItemKey>, st: TreeState)
    requires depth <= c.maxDepth
    ensures var r := BuildChildren(c, inputs, multiplier, depth, path, st);
      ChildrenWellNumbered(r.0) && (|r.0| > 0 ==> r.0[0].num == st.counter + 1)
    decreases Remaining(c, depth), 0, |inputs|
  {
    if |inputs| > 0 {
      var first := BuildInput(c, inputs[0], multiplier, depth, path, st);
      ChildrenCons(c, inputs, multiplier, depth, path, st);
      InputNumbered(c, inputs[0], multiplier, depth, path, st);
      InputSize(c, inputs[0], multiplier, depth, path, st);
      ChildrenNumbered(c, inputs[1..], multiplier, depth, path, first.1);
      if first.0.Some? {
        NodesCons(first.0.value, BuildChildren(c, inputs[1..], multiplier, depth, path, first.1).0);
      }
    }
  }

  // ---------------------------------------------------------------------------
  // The tree

  /**
   * `buildRequirementTree` totals agree with the tree: each leaf item total is the sum of
   * the unexpanded item nodes with that id, each fluid total the sum of the fluid nodes with
   * that id, and each catalyst entry the largest catalyst amount any expanded recipe asks for.
   */
  lemma TreeTotals(pack: PackData, index: JeiIndex, rootKey: ItemKey, targetAmount: JsNumber,
                   selectedRecipe: map<string, string>, selectedItem: map<string, string>, maxDepth: Option<int>, id: string)
    ensures var r := BuildRequirementTree(pack, index, rootKey, targetAmount, selectedRecipe, selectedItem, maxDepth);
      GetOr0(r.leafItemTotals, id) == LeafItemSum(r.root, id)
      && GetOr0(r.leafFluidTotals, id) == FluidSum(r.root, id)
      && GetOr0(r.catalysts, id) == CatalystMax(r.root, id)
  {
    var c := MakeCtx(pack, index, selectedRecipe, selectedItem, maxDepth);
    var st := TreeState(0, map[], map[], map[]);
    var target := FiniteOr(targetAmount, 1.0);
    ForItemLeafItems(c, rootKey, target, 0, [], st, id);
    ForItemFluids(c, rootKey, target, 0, [], st, id);
    ForItemCatalysts(c, rootKey, target, 0, [], st, id);
  }

  /** Node numbers run 1, 2, 3, ... in preorder, so every node id `n<k>` of a tree is distinct. */
  lemma TreeNumbering(pack: PackData, index: JeiIndex, rootKey: ItemKey, targetAmount: JsNumber,
                      selectedRecipe: map<string, string>, selectedItem: map<string, string>, maxDepth: Option<int>)
    ensures var root := BuildRequirementTree(pack, index, rootKey, targetAmount, selectedRecipe, selectedItem, maxDepth).root;
      Nums(root) == Range(1, Size(root) + 1)
  {
    var c := MakeCtx(pack, index, selectedRecipe, selectedItem, maxDepth);
    var st := TreeState(0, map[], map[], map[]);
    var b := BuildForItem(c, rootKey, FiniteOr(targetAmount, 1.0), 0, [], st);
    ForItemNumbered(c, rootKey, FiniteOr(targetAmount, 1.0), 0, [], st);
    WellNumberedNums(b.0);
  }
}
