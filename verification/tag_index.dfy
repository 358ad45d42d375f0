// The tag index `buildTagIndex` returns (src/jei/tags/resolve.ts), as written and with the
// invalidity check of `#` references corrected (see the findings on the `##` reference).
module TagIndexes {
  import opened Wrappers
  import opened Strings
  import opened PackTypes
  import opened TagResolve
  import opened TagResolveProps

  /** Every (tag, item) pair of `BuildTagIndexWith` at once. */
  lemma BuildTagIndexAll(pack: PackData, recheck: bool)
    ensures var r := BuildTagIndexWith(pack, recheck);
      forall t, i :: i in GetSet(r.itemIdsByTagId, t) <==>
        Declares(pack.gameId, pack.items, t, i) || ResolvedHas(ResolveTagDefs(pack, recheck).resolved, t, i)
  {
    forall t, i {
      BuildTagIndexAt(pack, recheck, t, i);
    }
  }

  /**
   * `buildTagIndex(pack)` as written: the two maps are inverses, and a tag lists an item
   * exactly when a definition of the item declares the tag or the tag resolved to a set
   * holding it.
   */
  function BuildTagIndex(pack: PackData): (r: TagIndex)
    ensures Inverse(r)
    ensures forall t, i :: i in GetSet(r.itemIdsByTagId, t) <==>
      Declares(pack.gameId, pack.items, t, i) || ResolvedHas(ResolveTagDefs(pack, false).resolved, t, i)
  {
    BuildTagIndexInverse(pack, false);
    BuildTagIndexAll(pack, false);
    BuildTagIndexWith(pack, false)
  }

  /**
   * `buildTagIndex(pack)` with the invalidity check applied to the id actually resolved: the
   * same shape as `BuildTagIndex`, and besides, a tag the resolver found invalid lists only the
   * items whose definitions declare it.
   */
  function CorrectedTagIndex(pack: PackData): (r: TagIndex)
    ensures Inverse(r)
    ensures forall t, i :: i in GetSet(r.itemIdsByTagId, t) <==>
      Declares(pack.gameId, pack.items, t, i) || ResolvedHas(ResolveTagDefs(pack, true).resolved, t, i)
    ensures forall t, i :: t in ResolveTagDefs(pack, true).invalid ==>
      (i in GetSet(r.itemIdsByTagId, t) <==> Declares(pack.gameId, pack.items, t, i))
  {
    BuildTagIndexInverse(pack, true);
    BuildTagIndexAll(pack, true);
    ResolveTagDefsDisjoint(pack, true);
    BuildTagIndexWith(pack, true)
  }

  /**
   * On the pack whose tag `g:a` lists `##g:a` and `g:stone`, the index as written lists
   * `g:stone` under `g:a` although the resolver found `g:a` invalid; the corrected index lists
   * nothing under it.
   */
  lemma DoubleHashIndexes(i: string)
    ensures "g:a" in ResolveTagDefs(DoubleHashPack(), false).invalid
    ensures "g:stone" in GetSet(BuildTagIndex(DoubleHashPack()).itemIdsByTagId, "g:a")
    ensures i !in GetSet(CorrectedTagIndex(DoubleHashPack()).itemIdsByTagId, "g:a")
  {
    DoubleHashAsWritten();
    DoubleHashCorrected(i);
  }
}
