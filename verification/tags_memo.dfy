// What the memo of the tag resolver holds (src/jei/tags/resolve.ts): a memoised tag is
// defined, each of its `#` references was memoised before it, and its set is exactly the known
// items it lists plus the sets of the tags it references. From this follow the propagation of
// an undefined or invalid reference and the invalidation of every tag on a reference cycle.
module TagMemo {
  import opened Wrappers
  import opened Strings
  import opened JsValues
  import opened PackTypes
  import opened TagResolve
  import opened TagResolveProps

  // ---------------------------------------------------------------------------
  // Reading the memo

  /** The index of the entry `resolved.get(x)` reads, or the length of the memo when there is none. */
  function Pos(s: seq<(string, set<string>)>, x: string): (r: nat)
    ensures r <= |s|
    ensures r < |s| ==> s[r].0 == x
    ensures forall j :: 0 <= j < r ==> s[j].0 != x
    ensures r < |s| <==> Cached(s, x).Some?
    ensures r < |s| ==> Cached(s, x) == Some(s[r].1)
    decreases |s|
  {
    if |s| == 0 then 0
    else if s[0].0 == x then 0
    else
      var r := 1 + Pos(s[1..], x);
      assert forall j :: 0 < j < |s| ==> s[j] == s[1..][j - 1];
      r
  }

  /** `resolved.get(x)`, with a missing entry read as the empty set. */
  function Memo(s: seq<(string, set<string>)>, x: string): (r: set<string>)
    ensures Cached(s, x).Some? ==> r == Cached(s, x).value
    ensures Cached(s, x).None? ==> r == {}
  {
    match Cached(s, x)
    case Some(v) => v
    case None => {}
  }

  /** Extending the memo does not move an entry that is already there. */
  lemma {:induction false} PosPrefix(p: seq<(string, set<string>)>, q: seq<(string, set<string>)>, x: string)
    requires p <= q && Pos(p, x) < |p|
    ensures Pos(q, x) == Pos(p, x) && Memo(q, x) == Memo(p, x)
    decreases |p|
  {
    assert q[0] == p[0];
    if p[0].0 != x {
      assert p[1..] <= q[1..];
      PosPrefix(p[1..], q[1..], x);
    }
  }

  // ---------------------------------------------------------------------------
  // The values of a definition

  /** The id a `#` value resolves (normalised twice), or the empty id for any other value. */
  function RefTarget(c: Ctx, v: TagValue): (r: string)
    ensures r != "" ==> !Malformed(ValueId(v).0) && StartsWith(ValueId(v).0.s, "#")
  {
    var id := ValueId(v).0;
    if !Malformed(id) && StartsWith(id.s, "#") then NormalizeTagId(NormalizeTagId(id.s, c.ns), c.ns) else ""
  }

  /** One of the first `n` values is the known item id `i`. */
  predicate ListedUpTo(c: Ctx, vals: seq<TagValue>, n: nat, i: string)
    requires n <= |vals|
  {
    exists m :: 0 <= m < n && PlainItem(vals[m]) && ValueId(vals[m]).0.s == i && i in c.known
  }

  /** One of the first `n` values references a tag whose memoised set holds `i`. */
  predicate RefHasUpTo(c: Ctx, vals: seq<TagValue>, n: nat, s: seq<(string, set<string>)>, i: string)
    requires n <= |vals|
  {
    exists m :: 0 <= m < n && RefTarget(c, vals[m]) != "" && i in Memo(s, RefTarget(c, vals[m]))
  }

  /** Every reference among the first `n` values names a memoised tag. */
  predicate RefsMemoised(c: Ctx, vals: seq<TagValue>, n: nat, s: seq<(string, set<string>)>)
    requires n <= |vals|
  {
    forall m :: 0 <= m < n && RefTarget(c, vals[m]) != "" ==> Pos(s, RefTarget(c, vals[m])) < |s|
  }

  /** Tag `y` is defined and one of its values is a `#` reference to `z`. */
  predicate RefersTo(c: Ctx, y: string, z: string) {
    z != "" &&
    match TagDefOf(c.defs, y)
    case None => false
    case Some(d) => exists m :: 0 <= m < |d.values| && RefTarget(c, d.values[m]) == z
  }

  // ---------------------------------------------------------------------------
  // The memo invariant

  /**
   * Entry `j` of the memo: its tag is defined, every tag it references was memoised before it,
   * and its set is exactly the known items it lists plus the sets of the tags it references.
   */
  ghost predicate EntryOk(c: Ctx, s: seq<(string, set<string>)>, j: nat) {
    j < |s| &&
    match TagDefOf(c.defs, s[j].0)
    case None => false
    case Some(d) =>
      && (forall m :: 0 <= m < |d.values| && RefTarget(c, d.values[m]) != "" ==> Pos(s, RefTarget(c, d.values[m])) < j)
      && (forall i :: i in s[j].1 <==> ListedUpTo(c, d.values, |d.values|, i) || RefHasUpTo(c, d.values, |d.values|, s, i))
  }

  ghost predicate MemoOk(c: Ctx, s: seq<(string, set<string>)>) {
    forall j :: 0 <= j < |s| ==> EntryOk(c, s, j)
  }

  // ---------------------------------------------------------------------------
  // What one resolution adds to the memo

  /** Every entry `resolveTag` adds is for a defined tag off the current path. */
  lemma {:induction false} ResolveTagFresh(c: Ctx, raw: string, visiting: set<string>, st: ResolveState, j: nat)
    requires |st.resolved| <= j < |ResolveTag(c, raw, visiting, st).1.resolved|
    ensures var k := ResolveTag(c, raw, visiting, st).1.resolved[j].0;
      k !in visiting && TagDefOf(c.defs, k).Some?
    decreases |DefinedIds(c.defs) - visiting|, 0
  {
    var t := NormalizeTagId(raw, c.ns);
    var r := ResolveTag(c, raw, visiting, st);
    if t == "" || t in st.invalid || Cached(st.resolved, t).Some? || t in visiting || TagDefOf(c.defs, t).None? {
      assert false;
    } else {
      var d := TagDefOf(c.defs, t).value;
      DefinedShrinks(DefinedIds(c.defs), visiting, t);
      assert r == ResolveValues(c, t, d.values, {}, visiting + {t}, st);
      ResolveValuesFresh(c, t, d.values, {}, visiting + {t}, st, j);
    }
  }

  /** Every entry the values loop of `t` adds is for a defined tag off the path, except the final one for `t`. */
  lemma {:induction false} ResolveValuesFresh(c: Ctx, t: string, vals: seq<TagValue>, acc: set<string>, visiting: set<string>, st: ResolveState, j: nat)
    requires |st.resolved| <= j < |ResolveValues(c, t, vals, acc, visiting, st).1.resolved|
    ensures var s := ResolveValues(c, t, vals, acc, visiting, st).1.resolved;
      (s[j].0 !in visiting && TagDefOf(c.defs, s[j].0).Some?) || (j == |s| - 1 && s[j].0 == t)
    decreases |DefinedIds(c.defs) - visiting|, 1, |vals|
  {
    var r := ResolveValues(c, t, vals, acc, visiting, st);
    if |vals| == 0 {
      assert r.1.resolved == st.resolved + [(t, acc)];
    } else {
      var (id, required) := ValueId(vals[0]);
      if Malformed(id) {
        assert false;
      } else if StartsWith(id.s, "#") {
        var refId := NormalizeTagId(id.s, c.ns);
        var rt := ResolveTag(c, refId, visiting, st);
        if RefCheckId(c, refId) in rt.1.invalid {
          assert r.1.resolved == rt.1.resolved;
          ResolveTagFresh(c, refId, visiting, st, j);
        } else {
          assert r == ResolveValues(c, t, vals[1..], acc + rt.0, visiting, rt.1);
          if j < |rt.1.resolved| {
            assert r.1.resolved[j] == rt.1.resolved[j];
            ResolveTagFresh(c, refId, visiting, st, j);
          } else {
            ResolveValuesFresh(c, t, vals[1..], acc + rt.0, visiting, rt.1, j);
          }
        }
      } else if id.s !in c.known {
        if required {
          assert false;
        } else {
          ResolveValuesFresh(c, t, vals[1..], acc, visiting, st, j);
        }
      } else {
        ResolveValuesFresh(c, t, vals[1..], acc + {id.s}, visiting, st, j);
      }
    }
  }

  /** A memo extended by entries for other tags and then one for `x` reads that last entry for `x`. */
  lemma CachedLast(s0: seq<(string, set<string>)>, s: seq<(string, set<string>)>, x: string)
    requires s0 <= s && |s| > |s0| && Cached(s0, x).None? && s[|s| - 1].0 == x
    requires forall j :: |s0| <= j < |s| - 1 ==> s[j].0 != x
    ensures Cached(s, x) == Some(s[|s| - 1].1)
  {
    forall j | 0 <= j < |s| - 1 ensures s[j].0 != x {
      if j < |s0| {
        assert s[j] == s0[j];
      }
    }
    assert Pos(s, x) == |s| - 1;
  }

  /** `resolveTag` of a defined id that is not empty, invalid, memoised or on the path runs its values loop. */
  lemma ResolveTagExpands(c: Ctx, raw: string, visiting: set<string>, st: ResolveState)
    requires var x := NormalizeTagId(raw, c.ns);
      x != "" && x !in st.invalid && Cached(st.resolved, x).None? && x !in visiting && TagDefOf(c.defs, x).Some?
    ensures var x := NormalizeTagId(raw, c.ns);
      ResolveTag(c, raw, visiting, st) == ResolveValues(c, x, TagDefOf(c.defs, x).value.values, {}, visiting + {x}, st)
  {
  }

  /**
   * After `resolveTag` of a non-empty id that did not end invalid, the memo holds the returned
   * set for it: what a `#` reference contributes is what the memo says about its tag.
   */
  lemma ResolveTagMemoises(c: Ctx, raw: string, visiting: set<string>, st: ResolveState)
    requires NormalizeTagId(raw, c.ns) != ""
    ensures var x := NormalizeTagId(raw, c.ns);
      var r := ResolveTag(c, raw, visiting, st);
      x !in r.1.invalid ==> Cached(r.1.resolved, x) == Some(r.0)
  {
    var x := NormalizeTagId(raw, c.ns);
    var r := ResolveTag(c, raw, visiting, st);
    if x !in r.1.invalid && Cached(st.resolved, x).None? {
      ResolveTagCompletes(c, raw, visiting, st);
      CachedLast(st.resolved, r.1.resolved, x);
    }
  }

  /** A `resolveTag` that does not invalidate its unmemoised id ends with one new entry for it, the last. */
  lemma ResolveTagCompletes(c: Ctx, raw: string, visiting: set<string>, st: ResolveState)
    requires var x := NormalizeTagId(raw, c.ns);
      x != "" && Cached(st.resolved, x).None? && x !in ResolveTag(c, raw, visiting, st).1.invalid
    ensures var x := NormalizeTagId(raw, c.ns);
      var r := ResolveTag(c, raw, visiting, st);
      var s := r.1.resolved;
      && |s| > |st.resolved| && s[|s| - 1] == (x, r.0)
      && forall j :: |st.resolved| <= j < |s| - 1 ==> s[j].0 != x
  {
    var x := NormalizeTagId(raw, c.ns);
    ResolveTagOutcome(c, raw, visiting, st);
    ResolveTagExpands(c, raw, visiting, st);
    ValuesLoopAddsOthers(c, x, TagDefOf(c.defs, x).value.values, visiting + {x}, st);
  }

  /** The values loop of `t`, on the path, adds no entry for `t` but its last one. */
  lemma ValuesLoopAddsOthers(c: Ctx, t: string, vals: seq<TagValue>, visiting: set<string>, st: ResolveState)
    requires t in visiting
    ensures var s := ResolveValues(c, t, vals, {}, visiting, st).1.resolved;
      forall j :: |st.resolved| <= j < |s| - 1 ==> s[j].0 != t
  {
    var s := ResolveValues(c, t, vals, {}, visiting, st).1.resolved;
    forall j | |st.resolved| <= j < |s| - 1 ensures s[j].0 != t {
      ResolveValuesFresh(c, t, vals, {}, visiting, st, j);
    }
  }

  // ---------------------------------------------------------------------------
  // The memo invariant is kept

  lemma ListedSnoc(c: Ctx, vals: seq<TagValue>, k: nat, i: string)
    requires k < |vals|
    ensures ListedUpTo(c, vals, k + 1, i) <==>
      ListedUpTo(c, vals, k, i) || (PlainItem(vals[k]) && ValueId(vals[k]).0.s == i && i in c.known)
  {
  }

  lemma RefHasSnoc(c: Ctx, vals: seq<TagValue>, k: nat, s: seq<(string, set<string>)>, i: string)
    requires k < |vals|
    ensures RefHasUpTo(c, vals, k + 1, s, i) <==>
      RefHasUpTo(c, vals, k, s, i) || (RefTarget(c, vals[k]) != "" && i in Memo(s, RefTarget(c, vals[k])))
  {
  }

  /** Extending the memo keeps every referenced tag memoised. */
  lemma RefsMemoisedStable(c: Ctx, vals: seq<TagValue>, n: nat, s: seq<(string, set<string>)>, s': seq<(string, set<string>)>)
    requires n <= |vals| && s <= s' && RefsMemoised(c, vals, n, s)
    ensures RefsMemoised(c, vals, n, s')
  {
    forall m | 0 <= m < n && RefTarget(c, vals[m]) != ""
      ensures Pos(s', RefTarget(c, vals[m])) < |s'|
    {
      PosPrefix(s, s', RefTarget(c, vals[m]));
    }
  }

  /** Extending the memo does not change what the referenced tags hold. */
  lemma RefHasStable(c: Ctx, vals: seq<TagValue>, n: nat, s: seq<(string, set<string>)>, s': seq<(string, set<string>)>, i: string)
    requires n <= |vals| && s <= s' && RefsMemoised(c, vals, n, s)
    ensures RefHasUpTo(c, vals, n, s', i) <==> RefHasUpTo(c, vals, n, s, i)
  {
    if RefHasUpTo(c, vals, n, s, i) {
      var m :| 0 <= m < n && RefTarget(c, vals[m]) != "" && i in Memo(s, RefTarget(c, vals[m]));
      PosPrefix(s, s', RefTarget(c, vals[m]));
    }
    if RefHasUpTo(c, vals, n, s', i) {
      var m :| 0 <= m < n && RefTarget(c, vals[m]) != "" && i in Memo(s', RefTarget(c, vals[m]));
      PosPrefix(s, s', RefTarget(c, vals[m]));
    }
  }

  lemma EntryOkExtend(c: Ctx, s: seq<(string, set<string>)>, s': seq<(string, set<string>)>, j: nat)
    requires s <= s' && EntryOk(c, s, j)
    ensures EntryOk(c, s', j)
  {
    var d := TagDefOf(c.defs, s[j].0).value;
    assert s'[j] == s[j];
    assert RefsMemoised(c, d.values, |d.values|, s);
    forall i ensures RefHasUpTo(c, d.values, |d.values|, s', i) <==> RefHasUpTo(c, d.values, |d.values|, s, i) {
      RefHasStable(c, d.values, |d.values|, s, s', i);
    }
  }

  /** `resolveTag` keeps the memo invariant when every `#` reference is checked against the id it resolved. */
  lemma {:induction false} ResolveTagMemoOk(c: Ctx, raw: string, visiting: set<string>, st: ResolveState)
    requires RefsChecked(c) && MemoOk(c, st.resolved)
    ensures MemoOk(c, ResolveTag(c, raw, visiting, st).1.resolved)
    decreases |DefinedIds(c.defs) - visiting|, 0
  {
    var t := NormalizeTagId(raw, c.ns);
    var r := ResolveTag(c, raw, visiting, st);
    if t == "" || t in st.invalid || Cached(st.resolved, t).Some? || t in visiting || TagDefOf(c.defs, t).None? {
      assert r.1.resolved == st.resolved;
    } else {
      var d := TagDefOf(c.defs, t).value;
      DefinedShrinks(DefinedIds(c.defs), visiting, t);
      DefinedValuesChecked(c, t);
      assert d.values[0..] == d.values;
      assert r == ResolveValues(c, t, d.values[0..], {}, visiting + {t}, st);
      ResolveValuesMemoOk(c, t, d, 0, {}, visiting + {t}, st);
    }
  }

  /** What value `k` contributes: the memoised set of the tag it references, or the known item it names. */
  function Contribution(c: Ctx, v: TagValue, s: seq<(string, set<string>)>): set<string> {
    if RefTarget(c, v) != "" then Memo(s, RefTarget(c, v))
    else if PlainItem(v) && ValueId(v).0.s in c.known then {ValueId(v).0.s}
    else {}
  }

  /** Adding the contribution of value `k` to what the values before it contribute, for one item id. */
  lemma AccStepAt(c: Ctx, vals: seq<TagValue>, k: nat, acc: set<string>, s: seq<(string, set<string>)>, s': seq<(string, set<string>)>, i: string)
    requires k < |vals| && s <= s' && RefsMemoised(c, vals, k, s)
    requires i in acc <==> ListedUpTo(c, vals, k, i) || RefHasUpTo(c, vals, k, s, i)
    ensures i in acc + Contribution(c, vals[k], s') <==> ListedUpTo(c, vals, k + 1, i) || RefHasUpTo(c, vals, k + 1, s', i)
  {
    RefHasStable(c, vals, k, s, s', i);
    ListedSnoc(c, vals, k, i);
    RefHasSnoc(c, vals, k, s', i);
  }

  /** Adding the contribution of value `k` to what the values before it contribute. */
  lemma AccStep(c: Ctx, vals: seq<TagValue>, k: nat, acc: set<string>, s: seq<(string, set<string>)>, s': seq<(string, set<string>)>)
    requires k < |vals| && s <= s' && RefsMemoised(c, vals, k, s)
    requires RefTarget(c, vals[k]) != "" ==> Pos(s', RefTarget(c, vals[k])) < |s'|
    requires forall i :: i in acc <==> ListedUpTo(c, vals, k, i) || RefHasUpTo(c, vals, k, s, i)
    ensures RefsMemoised(c, vals, k + 1, s')
    ensures forall i :: i in acc + Contribution(c, vals[k], s') <==> ListedUpTo(c, vals, k + 1, i) || RefHasUpTo(c, vals, k + 1, s', i)
  {
    RefsMemoisedStable(c, vals, k, s, s');
    forall i ensures i in acc + Contribution(c, vals[k], s') <==> ListedUpTo(c, vals, k + 1, i) || RefHasUpTo(c, vals, k + 1, s', i) {
      AccStepAt(c, vals, k, acc, s, s', i);
    }
  }

  /**
   * The values loop of `t` from value `k` on, with every reference before `k` memoised and `acc`
   * holding exactly what the values before `k` contribute, keeps the memo invariant.
   */
  lemma {:induction false} ResolveValuesMemoOk(c: Ctx, t: string, d: TagDef, k: nat, acc: set<string>, visiting: set<string>, st: ResolveState)
    requires RefsChecked(c) && TagDefOf(c.defs, t) == Some(d) && ValuesChecked(c, d.values) && k <= |d.values|
    requires MemoOk(c, st.resolved) && RefsMemoised(c, d.values, k, st.resolved)
    requires forall i :: i in acc <==> ListedUpTo(c, d.values, k, i) || RefHasUpTo(c, d.values, k, st.resolved, i)
    ensures MemoOk(c, ResolveValues(c, t, d.values[k..], acc, visiting, st).1.resolved)
    decreases |DefinedIds(c.defs) - visiting|, 1, |d.values| - k
  {
    var vals := d.values[k..];
    var r := ResolveValues(c, t, vals, acc, visiting, st);
    if k == |d.values| {
      AppendEntry(c, t, d, acc, st.resolved);
    } else {
      assert vals[0] == d.values[k] && vals[1..] == d.values[k + 1..];
      var (id, required) := ValueId(vals[0]);
      if Malformed(id) {
        assert r.1.resolved == st.resolved;
      } else if StartsWith(id.s, "#") {
        var refId := NormalizeTagId(id.s, c.ns);
        var rt := ResolveTag(c, refId, visiting, st);
        ResolveTagMemoOk(c, refId, visiting, st);
        if RefCheckId(c, refId) in rt.1.invalid {
          assert r.1.resolved == rt.1.resolved;
        } else {
          assert r == ResolveValues(c, t, vals[1..], acc + rt.0, visiting, rt.1);
          RefContribution(c, d, k, visiting, st);
          AccStep(c, d.values, k, acc, st.resolved, rt.1.resolved);
          ResolveValuesMemoOk(c, t, d, k + 1, acc + rt.0, visiting, rt.1);
        }
      } else if id.s !in c.known {
        if required {
          assert r.1.resolved == st.resolved;
        } else {
          assert Contribution(c, d.values[k], st.resolved) == {};
          AccStep(c, d.values, k, acc, st.resolved, st.resolved);
          ResolveValuesMemoOk(c, t, d, k + 1, acc, visiting, st);
        }
      } else {
        assert Contribution(c, d.values[k], st.resolved) == {id.s};
        AccStep(c, d.values, k, acc, st.resolved, st.resolved);
        ResolveValuesMemoOk(c, t, d, k + 1, acc + {id.s}, visiting, st);
      }
    }
  }

  /** A `#` value that did not invalidate the tag: its target is memoised and the returned set is its memoised set. */
  lemma RefContribution(c: Ctx, d: TagDef, k: nat, visiting: set<string>, st: ResolveState)
    requires ValuesChecked(c, d.values) && k < |d.values|
    requires var id := ValueId(d.values[k]).0; !Malformed(id) && StartsWith(id.s, "#")
    requires var refId := NormalizeTagId(ValueId(d.values[k]).0.s, c.ns);
      RefCheckId(c, refId) !in ResolveTag(c, refId, visiting, st).1.invalid
    ensures var rt := ResolveTag(c, NormalizeTagId(ValueId(d.values[k]).0.s, c.ns), visiting, st);
      && (RefTarget(c, d.values[k]) != "" ==> Pos(rt.1.resolved, RefTarget(c, d.values[k])) < |rt.1.resolved|)
      && rt.0 == Contribution(c, d.values[k], rt.1.resolved)
  {
    var id := ValueId(d.values[k]).0;
    var refId := NormalizeTagId(id.s, c.ns);
    var x := RefTarget(c, d.values[k]);
    assert x == NormalizeTagId(refId, c.ns);
    assert RefCheckId(c, refId) == x by {
      if !c.recheck {
        assert WellFormedRef(d.values[k], c.ns);
      }
    }
    if x != "" {
      ResolveTagMemoises(c, refId, visiting, st);
    }
  }

  /** Reaching the end of the values records an entry that satisfies the invariant. */
  lemma AppendEntry(c: Ctx, t: string, d: TagDef, acc: set<string>, s: seq<(string, set<string>)>)
    requires TagDefOf(c.defs, t) == Some(d)
    requires MemoOk(c, s) && RefsMemoised(c, d.values, |d.values|, s)
    requires forall i :: i in acc <==> ListedUpTo(c, d.values, |d.values|, i) || RefHasUpTo(c, d.values, |d.values|, s, i)
    ensures MemoOk(c, s + [(t, acc)])
  {
    var s' := s + [(t, acc)];
    RefsMemoisedStable(c, d.values, |d.values|, s, s');
    forall i ensures RefHasUpTo(c, d.values, |d.values|, s', i) <==> RefHasUpTo(c, d.values, |d.values|, s, i) {
      RefHasStable(c, d.values, |d.values|, s, s', i);
    }
    forall j | 0 <= j < |s| ensures EntryOk(c, s', j) {
      EntryOkExtend(c, s, s', j);
    }
    assert EntryOk(c, s', |s|);
  }

  /**
   * `resolveTag` of a non-empty id that does not end invalid returns exactly the known item ids
   * its definition lists plus the sets of the tags it references, as memoised afterwards.
   */
  lemma ResolveTagUnion(c: Ctx, raw: string, visiting: set<string>, st: ResolveState, i: string)
    requires RefsChecked(c) && MemoOk(c, st.resolved)
    requires NormalizeTagId(raw, c.ns) != "" && NormalizeTagId(raw, c.ns) !in ResolveTag(c, raw, visiting, st).1.invalid
    ensures var r := ResolveTag(c, raw, visiting, st);
      match TagDefOf(c.defs, NormalizeTagId(raw, c.ns))
      case None => false
      case Some(d) =>
        i in r.0 <==> ListedUpTo(c, d.values, |d.values|, i) || RefHasUpTo(c, d.values, |d.values|, r.1.resolved, i)
  {
    var x := NormalizeTagId(raw, c.ns);
    var r := ResolveTag(c, raw, visiting, st);
    ResolveTagMemoises(c, raw, visiting, st);
    ResolveTagMemoOk(c, raw, visiting, st);
    assert EntryOk(c, r.1.resolved, Pos(r.1.resolved, x));
  }
}
