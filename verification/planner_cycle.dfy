// The cycle branch of `buildForItem` (src/jei/planner/planner.ts): the gain of one trip
// round a cycle, compared with an independent product of the per-step ratios.
module PlannerCycle {
  import opened Wrappers
  import opened PackTypes
  import opened Key
  import opened Planner

  /** Every step has a ratio. */
  predicate AllSteps(steps: seq<Option<real>>) {
    forall i :: 0 <= i < |steps| ==> steps[i].Some?
  }

  /** The product of the step ratios. */
  function Product(steps: seq<Option<real>>): real
    requires AllSteps(steps)
  {
    if |steps| == 0 then 1.0 else steps[0].value * Product(steps[1..])
  }

  lemma PositiveProduct(x: real, y: real)
    requires x > 0.0 && y > 0.0
    ensures x * y > 0.0
  {
  }

  lemma Reassociate(f: real, r: real, p: real)
    ensures (f * r) * p == f * (r * p)
  {
  }

  /** Positive ratios have a positive product. */
  lemma {:induction false} ProductPositive(steps: seq<Option<real>>)
    requires AllSteps(steps) && forall i :: 0 <= i < |steps| && steps[i].Some? ==> steps[i].value > 0.0
    ensures Product(steps) > 0.0
  {
    if |steps| > 0 {
      ProductPositive(steps[1..]);
      PositiveProduct(steps[0].value, Product(steps[1..]));
    }
  }

  /** The loop multiplies `factor` by every ratio, or gives 0 when some step fails. */
  lemma {:induction false} FoldFactorProduct(steps: seq<Option<real>>, factor: real)
    ensures FoldFactor(steps, factor) == if AllSteps(steps) then factor * Product(steps) else 0.0
  {
    if |steps| > 0 {
      assert AllSteps(steps) <==> steps[0].Some? && AllSteps(steps[1..]) by {
        if steps[0].Some? && AllSteps(steps[1..]) {
          forall i | 0 <= i < |steps|
            ensures steps[i].Some?
          {
            if i > 0 {
              assert steps[i] == steps[1..][i - 1];
            }
          }
        }
      }
      if steps[0].Some? {
        FoldFactorProduct(steps[1..], factor * steps[0].value);
        if AllSteps(steps[1..]) {
          Reassociate(factor, steps[0].value, Product(steps[1..]));
        }
      }
    }
  }

  /** The factor of a non-empty list of positive steps is their product, else 0. */
  lemma StepsFactor(steps: seq<Option<real>>)
    requires forall i :: 0 <= i < |steps| && steps[i].Some? ==> steps[i].value > 0.0
    ensures |steps| > 0 ==> FoldFactor(steps, 1.0) == if AllSteps(steps) then Product(steps) else 0.0
    ensures |steps| > 0 ==> FoldFactor(steps, 1.0) >= 0.0
  {
    FoldFactorProduct(steps, 1.0);
    if AllSteps(steps) {
      ProductPositive(steps);
    }
  }

  /**
   * `cycleFactor` is the product of the step ratios round the cycle when every step has
   * one, and 0 when the cycle is empty or any step fails; it is never negative.
   */
  lemma CycleFactorIsProduct(c: PlanCtx, keys: seq<ItemKey>)
    ensures var steps := CycleSteps(c, keys);
      CycleFactor(c, keys) == if |keys| > 0 && AllSteps(steps) then Product(steps) else 0.0
    ensures CycleFactor(c, keys) >= 0.0
  {
    StepsFactor(CycleSteps(c, keys));
  }

  /**
   * A cycle node is marked as a seed only when the cycle grows: it is non-empty, every step
   * has a chosen recipe with positive amounts, and the product of the ratios exceeds
   * 1.000001. A node that is not a seed keeps the amount asked of it. A seed starts from what
   * the chosen recipe of the last item on the cycle consumes of `key` per craft, when that is
   * positive, and from the amount asked of it otherwise.
   */
  lemma CycleSeedMeansGrowth(c: PlanCtx, num: nat, key: ItemKey, amountNeeded: real, path: seq<ItemKey>)
    ensures var n := CycleNode(c, num, key, amountNeeded, path);
      var keys := CycleKeys(path, ItemKeyHash(key));
      var steps := CycleSteps(c, keys);
      (n.cycleSeed <==> |keys| > 0 && AllSteps(steps) && Product(steps) > 1.000001)
      && (!n.cycleSeed ==> n.amount == amountNeeded)
      && (n.cycleSeed ==>
            var pred := GetChosenRecipe(c, keys[|keys| - 1]);
            var s := if pred.Some? then PerCraftInputAmountFor(pred.value.recipe, pred.value.rtype, key) else 0.0;
            n.amount == if s > 0.0 then s else amountNeeded)
  {
    CycleFactorIsProduct(c, CycleKeys(path, ItemKeyHash(key)));
  }
}
