// The tag resolver's whole run (src/jei/tags/resolve.ts:116): after every defined tag has been
// resolved, each one is invalid or memoised, a memoised tag holds the union of what it lists
// and references, and a tag that reaches a cycle, an undefined tag or an invalid tag through
// `#` references ends invalid.
module TagSettle {
  import opened Wrappers
  import opened Strings
  import opened PackTypes
  import opened TagResolve
  import opened TagResolveProps
  import opened TagMemo

  lemma {:induction false} ResolveAllMemoOk(c: Ctx, keys: seq<string>, st: ResolveState)
    requires RefsChecked(c) && MemoOk(c, st.resolved)
    ensures MemoOk(c, ResolveAll(c, keys, st).resolved)
    decreases |keys|
  {
    if |keys| > 0 {
      ResolveTagMemoOk(c, keys[0], {}, st);
      ResolveAllMemoOk(c, keys[1..], ResolveTag(c, keys[0], {}, st).1);
    }
  }

  /** A tag id that was resolved, or named by a key still to be resolved, ends memoised or invalid. */
  lemma {:induction false} ResolveAllSettles(c: Ctx, keys: seq<string>, st: ResolveState, x: string)
    requires x != ""
    requires x in st.invalid || Pos(st.resolved, x) < |st.resolved|
      || exists k :: 0 <= k < |keys| && NormalizeTagId(keys[k], c.ns) == x
    ensures var r := ResolveAll(c, keys, st);
      x in r.invalid || Pos(r.resolved, x) < |r.resolved|
    decreases |keys|
  {
    var r := ResolveAll(c, keys, st);
    if |keys| == 0 {
    } else {
      var rt := ResolveTag(c, keys[0], {}, st);
      if x in st.invalid || Pos(st.resolved, x) < |st.resolved| {
        if x !in st.invalid {
          PosPrefix(st.resolved, rt.1.resolved, x);
        }
      } else if NormalizeTagId(keys[0], c.ns) == x {
        ResolveTagMemoises(c, keys[0], {}, st);
      } else {
        var k :| 0 <= k < |keys| && NormalizeTagId(keys[k], c.ns) == x;
        assert keys[1..][k - 1] == keys[k];
      }
      ResolveAllSettles(c, keys[1..], rt.1, x);
    }
  }

  // ---------------------------------------------------------------------------
  // After every defined tag has been resolved

  /** The invalidity check looks at the id that was resolved, with the correction or with well-formed references. */
  predicate Checked(pack: PackData, recheck: bool) {
    recheck || RefsChecked(TagCtx(pack, false))
  }

  lemma ResolveTagDefsMemoOk(pack: PackData, recheck: bool)
    requires Checked(pack, recheck)
    ensures MemoOk(TagCtx(pack, recheck), ResolveTagDefs(pack, recheck).resolved)
  {
    ResolveAllMemoOk(TagCtx(pack, recheck), TagKeys(pack.tagDefs), ResolveState([], {}));
  }

  /** The normalised id of every key of `tagDefs` ends memoised or invalid. */
  lemma DefinedTagsSettle(pack: PackData, recheck: bool, k: nat)
    requires k < |pack.tagDefs| && NormalizeTagId(pack.tagDefs[k].tagId, pack.gameId) != ""
    ensures var x := NormalizeTagId(pack.tagDefs[k].tagId, pack.gameId);
      var res := ResolveTagDefs(pack, recheck);
      x in res.invalid || Cached(res.resolved, x).Some?
  {
    var keys := TagKeys(pack.tagDefs);
    assert keys[k] == pack.tagDefs[k].tagId;
    ResolveAllSettles(TagCtx(pack, recheck), keys, ResolveState([], {}), NormalizeTagId(keys[k], pack.gameId));
  }

  /**
   * A memoised tag is defined, every tag it references is memoised too, and its set is exactly
   * the known item ids it lists plus the sets of the tags it references: the union the values
   * loop collects.
   */
  lemma MemoisedTag(pack: PackData, recheck: bool, y: string, i: string)
    requires Checked(pack, recheck)
    requires Cached(ResolveTagDefs(pack, recheck).resolved, y).Some?
    ensures var c := TagCtx(pack, recheck);
      var s := ResolveTagDefs(pack, recheck).resolved;
      match TagDefOf(pack.tagDefs, y)
      case None => false
      case Some(d) =>
        && (forall z :: RefersTo(c, y, z) ==> Cached(s, z).Some?)
        && (i in Memo(s, y) <==> ListedUpTo(c, d.values, |d.values|, i) || RefHasUpTo(c, d.values, |d.values|, s, i))
  {
    var c := TagCtx(pack, recheck);
    var s := ResolveTagDefs(pack, recheck).resolved;
    ResolveTagDefsMemoOk(pack, recheck);
    assert EntryOk(c, s, Pos(s, y));
  }

  /** A chain of `#` references: each tag in it references the next. */
  predicate RefChain(c: Ctx, p: seq<string>) {
    |p| >= 1 && forall k :: 0 <= k < |p| - 1 ==> RefersTo(c, p[k], p[k + 1])
  }

  /** A memoised tag comes after every tag it references. */
  lemma RefBefore(c: Ctx, s: seq<(string, set<string>)>, y: string, z: string)
    requires MemoOk(c, s) && RefersTo(c, y, z)
    ensures Pos(s, y) < |s| ==> Pos(s, z) < Pos(s, y)
  {
    if Pos(s, y) < |s| {
      assert EntryOk(c, s, Pos(s, y));
    }
  }

  /** Every memoised tag comes after every tag it references. */
  ghost predicate RefsFirst(c: Ctx, s: seq<(string, set<string>)>) {
    forall y, z {:trigger RefersTo(c, y, z)} :: RefersTo(c, y, z) && Pos(s, y) < |s| ==> Pos(s, z) < Pos(s, y)
  }

  lemma MemoRefsFirst(c: Ctx, s: seq<(string, set<string>)>)
    requires MemoOk(c, s)
    ensures RefsFirst(c, s)
  {
    forall y, z | RefersTo(c, y, z) && Pos(s, y) < |s| ensures Pos(s, z) < Pos(s, y) {
      RefBefore(c, s, y, z);
    }
  }

  /** Along a chain of references, each tag is memoised before the one referencing it. */
  lemma {:induction false} ChainPositions(c: Ctx, s: seq<(string, set<string>)>, p: seq<string>, m: nat)
    requires RefsFirst(c, s) && RefChain(c, p) && m < |p|
    ensures Pos(s, p[0]) < |s| ==> Pos(s, p[m]) + m <= Pos(s, p[0])
    decreases m
  {
    if m > 0 {
      ChainPositions(c, s, p, m - 1);
      assert RefersTo(c, p[m - 1], p[m]);
    }
  }

  /** A tag heading a chain whose last tag is not memoised is not memoised either. */
  lemma {:induction false} ChainUnmemoised(c: Ctx, s: seq<(string, set<string>)>, p: seq<string>, m: nat)
    requires RefsFirst(c, s) && RefChain(c, p) && m < |p| && Pos(s, p[|p| - 1]) == |s|
    ensures Pos(s, p[m]) == |s|
    decreases |p| - m
  {
    if m < |p| - 1 {
      ChainUnmemoised(c, s, p, m + 1);
      assert RefersTo(c, p[m], p[m + 1]);
    }
  }

  /** A tag on a cycle of references is never memoised by a memo that keeps its invariant. */
  lemma CycleUnmemoised(c: Ctx, s: seq<(string, set<string>)>, p: seq<string>)
    requires RefsFirst(c, s) && RefChain(c, p) && |p| >= 2 && p[|p| - 1] == p[0]
    ensures Pos(s, p[0]) == |s|
  {
    ChainPositions(c, s, p, |p| - 1);
  }

  /** Only defined tags are memoised. */
  lemma UndefinedUnmemoised(c: Ctx, s: seq<(string, set<string>)>, x: string)
    requires MemoOk(c, s)
    ensures TagDefOf(c.defs, x).None? ==> Pos(s, x) == |s|
  {
    if Pos(s, x) < |s| {
      assert EntryOk(c, s, Pos(s, x));
    }
  }

  /**
   * A defined tag that reaches, through `#` references, a tag that is undefined or ends invalid
   * ends invalid itself and resolves to nothing.
   */
  lemma UnresolvedRefInvalidates(pack: PackData, recheck: bool, p: seq<string>, k: nat)
    requires Checked(pack, recheck) && RefChain(TagCtx(pack, recheck), p)
    requires k < |pack.tagDefs| && p[0] == NormalizeTagId(pack.tagDefs[k].tagId, pack.gameId) && p[0] != ""
    requires TagDefOf(pack.tagDefs, p[|p| - 1]).None? || p[|p| - 1] in ResolveTagDefs(pack, recheck).invalid
    ensures p[0] in ResolveTagDefs(pack, recheck).invalid
    ensures Cached(ResolveTagDefs(pack, recheck).resolved, p[0]).None?
  {
    var c := TagCtx(pack, recheck);
    var res := ResolveTagDefs(pack, recheck);
    ResolveTagDefsMemoOk(pack, recheck);
    ResolveTagDefsDisjoint(pack, recheck);
    UndefinedUnmemoised(c, res.resolved, p[|p| - 1]);
    MemoRefsFirst(c, res.resolved);
    ChainUnmemoised(c, res.resolved, p, 0);
    DefinedTagsSettle(pack, recheck, k);
  }

  /** A defined tag on a cycle of `#` references ends invalid and resolves to nothing. */
  lemma CycleInvalidates(pack: PackData, recheck: bool, p: seq<string>, k: nat)
    requires Checked(pack, recheck) && RefChain(TagCtx(pack, recheck), p) && |p| >= 2 && p[|p| - 1] == p[0]
    requires k < |pack.tagDefs| && p[0] == NormalizeTagId(pack.tagDefs[k].tagId, pack.gameId) && p[0] != ""
    ensures p[0] in ResolveTagDefs(pack, recheck).invalid
    ensures Cached(ResolveTagDefs(pack, recheck).resolved, p[0]).None?
  {
    ResolveTagDefsMemoOk(pack, recheck);
    MemoRefsFirst(TagCtx(pack, recheck), ResolveTagDefs(pack, recheck).resolved);
    CycleUnmemoised(TagCtx(pack, recheck), ResolveTagDefs(pack, recheck).resolved, p);
    DefinedTagsSettle(pack, recheck, k);
  }
}
