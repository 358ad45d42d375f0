// Edge merging in the production line: `addEdge` and `addMerged` keep one edge per key,
// whose amount is the sum of the drafts filed under that key.
module LineEdges {
  import opened Wrappers
  import opened Strings
  import opened PackTypes
  import opened Key
  import opened OrderedMaps
  import opened Planner
  import opened ProductionLine

  // ---------------------------------------------------------------------------
  // Edge merging

  /** The amount on the edge with key `k`, 0 when there is none. */
  function EdgeAmount(m: seq<Entry<Edge>>, k: string): real {
    var e := Get(m, k);
    if e.Some? then e.value.draft.amount else 0.0
  }

  /** The total amount of the drafts whose key is `k`. */
  function SumFor(ds: seq<Draft>, k: string): real {
    if |ds| == 0 then 0.0 else (if EdgeKey(ds[0]) == k then ds[0].amount else 0.0) + SumFor(ds[1..], k)
  }

  /** The keys of a list of drafts. */
  function DraftKeys(ds: seq<Draft>): set<string> {
    set i | 0 <= i < |ds| :: EdgeKey(ds[i])
  }

  /** `addEdge` adds the draft's amount to its key's edge and leaves every other edge alone. */
  lemma AddEdgeAmount(m: seq<Entry<Edge>>, d: Draft, k: string)
    ensures EdgeAmount(AddEdge(m, d), k) == EdgeAmount(m, k) + (if EdgeKey(d) == k then d.amount else 0.0)
  {
    if EdgeKey(d) == k {
      AddKeyedSame(m, k, d);
    } else {
      AddKeyedOther(m, EdgeKey(d), d, k);
    }
  }

  lemma AddKeyedSame(m: seq<Entry<Edge>>, key: string, d: Draft)
    ensures EdgeAmount(AddKeyed(m, key, d), key) == EdgeAmount(m, key) + d.amount
  {
    match Get(m, key)
    case None =>
      PutGet(m, key, Edge("e:" + key, d), key);
    case Some(prev) =>
      var a := prev.draft.amount + d.amount;
      WithAmountKey(prev.draft, a);
      PutGet(m, key, Edge(prev.id, WithAmount(prev.draft, a)), key);
  }

  lemma AddKeyedOther(m: seq<Entry<Edge>>, key: string, d: Draft, k: string)
    requires k != key
    ensures EdgeAmount(AddKeyed(m, key, d), k) == EdgeAmount(m, k)
  {
    match Get(m, key)
    case None =>
      PutGet(m, key, Edge("e:" + key, d), k);
    case Some(prev) =>
      PutGet(m, key, Edge(prev.id, WithAmount(prev.draft, prev.draft.amount + d.amount)), k);
  }

  /** `addEdge` creates an edge only for a key not seen before. */
  lemma AddEdgeHas(m: seq<Entry<Edge>>, d: Draft, k: string)
    ensures Has(AddEdge(m, d), k) <==> Has(m, k) || k == EdgeKey(d)
    ensures |AddEdge(m, d)| == if Has(m, EdgeKey(d)) then |m| else |m| + 1
  {
    AddKeyedHas(m, EdgeKey(d), d, k);
  }

  lemma AddKeyedHas(m: seq<Entry<Edge>>, key: string, d: Draft, k: string)
    ensures Has(AddKeyed(m, key, d), k) <==> Has(m, k) || k == key
    ensures |AddKeyed(m, key, d)| == if Has(m, key) then |m| else |m| + 1
  {
    match Get(m, key)
    case None =>
      PutHas(m, key, Edge("e:" + key, d), k);
    case Some(prev) =>
      PutHas(m, key, Edge(prev.id, WithAmount(prev.draft, prev.draft.amount + d.amount)), k);
  }

  lemma {:induction false} MergeAllAppend(m: seq<Entry<Edge>>, a: seq<Draft>, b: seq<Draft>)
    ensures MergeAll(m, a + b) == MergeAll(MergeAll(m, a), b)
    decreases |a|
  {
    if |a| > 0 {
      assert (a + b)[0] == a[0] && (a + b)[1..] == a[1..] + b;
      MergeAllAppend(AddEdge(m, a[0]), a[1..], b);
    } else {
      assert a + b == b;
    }
  }

  /** After merging drafts, each key's edge carries its old amount plus the drafts' amounts for that key. */
  lemma {:induction false} MergeAllAmount(m: seq<Entry<Edge>>, ds: seq<Draft>, k: string)
    ensures EdgeAmount(MergeAll(m, ds), k) == EdgeAmount(m, k) + SumFor(ds, k)
    decreases |ds|
  {
    if |ds| > 0 {
      AddEdgeAmount(m, ds[0], k);
      MergeAllAmount(AddEdge(m, ds[0]), ds[1..], k);
    }
  }

  /** Merging creates exactly one edge per key among the drafts not already present. */
  lemma {:induction false} MergeAllHas(m: seq<Entry<Edge>>, ds: seq<Draft>, k: string)
    ensures Has(MergeAll(m, ds), k) <==> Has(m, k) || k in DraftKeys(ds)
    decreases |ds|
  {
    if |ds| > 0 {
      AddEdgeHas(m, ds[0], k);
      MergeAllHas(AddEdge(m, ds[0]), ds[1..], k);
      assert DraftKeys(ds) == {EdgeKey(ds[0])} + DraftKeys(ds[1..]) by {
        forall x | x in DraftKeys(ds)
          ensures x in {EdgeKey(ds[0])} + DraftKeys(ds[1..])
        {
          var i :| 0 <= i < |ds| && EdgeKey(ds[i]) == x;
          if i > 0 {
            assert EdgeKey(ds[1..][i - 1]) == x;
          }
        }
        forall x | x in DraftKeys(ds[1..])
          ensures x in DraftKeys(ds)
        {
          var i :| 0 <= i < |ds[1..]| && EdgeKey(ds[1..][i]) == x;
          assert EdgeKey(ds[i + 1]) == x;
        }
      }
    }
  }

  /** An entry filed under its draft's key, with id `e:<key>`. */
  predicate Filed(e: Entry<Edge>) {
    e.k == EdgeKey(e.v.draft) && e.v.id == "e:" + e.k
  }

  /** Every entry is filed under its draft's key and no key repeats. */
  predicate WellKeyed(m: seq<Entry<Edge>>) {
    DistinctKeys(m) && forall i :: 0 <= i < |m| ==> Filed(m[i])
  }

  lemma WithAmountKey(d: Draft, a: real)
    ensures EdgeKey(WithAmount(d, a)) == EdgeKey(d)
    ensures WithAmount(d, a).source == d.source && WithAmount(d, a).target == d.target
    ensures WithAmount(d, a).ItemDraft? == d.ItemDraft?
    ensures WithAmount(d, a).amount == a
  {
  }

  lemma FiledAdded(k: string, prev: Edge, a: real)
    requires Filed(Entry(k, prev))
    ensures Filed(Entry(k, Edge(prev.id, WithAmount(prev.draft, a))))
  {
    WithAmountKey(prev.draft, a);
  }

  lemma AddEdgeWellKeyed(m: seq<Entry<Edge>>, d: Draft)
    requires WellKeyed(m)
    ensures WellKeyed(AddEdge(m, d))
  {
    AddKeyedWellKeyed(m, EdgeKey(d), d);
  }

  lemma AddKeyedWellKeyed(m: seq<Entry<Edge>>, key: string, d: Draft)
    requires WellKeyed(m) && Filed(Entry(key, Edge("e:" + key, d)))
    ensures WellKeyed(AddKeyed(m, key, d))
  {
    match Get(m, key)
    case None =>
      PutDistinct(m, key, Edge("e:" + key, d));
      PutKeeps(m, key, Edge("e:" + key, d), Filed);
    case Some(prev) =>
      var j := Find(m, key).value;
      assert Filed(m[j]);
      var e := Edge(prev.id, WithAmount(prev.draft, prev.draft.amount + d.amount));
      FiledAdded(key, prev, prev.draft.amount + d.amount);
      PutDistinct(m, key, e);
      PutKeeps(m, key, e, Filed);
  }

  lemma {:induction false} MergeAllWellKeyed(m: seq<Entry<Edge>>, ds: seq<Draft>)
    requires WellKeyed(m)
    ensures WellKeyed(MergeAll(m, ds))
    decreases |ds|
  {
    if |ds| > 0 {
      AddEdgeWellKeyed(m, ds[0]);
      MergeAllWellKeyed(AddEdge(m, ds[0]), ds[1..]);
    }
  }

  /** What an edge joins: its kind (item or fluid), source and target. */
  function Ends(d: Draft): (bool, string, string) {
    (d.ItemDraft?, d.source, d.target)
  }

  /** `addEdge` only ever files edges joining what an old edge or the new draft joins. */
  lemma AddEdgeKeeps(m: seq<Entry<Edge>>, d: Draft, p: ((bool, string, string)) -> bool)
    requires forall i :: 0 <= i < |m| ==> p(Ends(m[i].v.draft))
    requires p(Ends(d))
    ensures forall i :: 0 <= i < |AddEdge(m, d)| ==> p(Ends(AddEdge(m, d)[i].v.draft))
  {
    AddKeyedKeeps(m, EdgeKey(d), d, p);
  }

  lemma AddKeyedKeeps(m: seq<Entry<Edge>>, key: string, d: Draft, p: ((bool, string, string)) -> bool)
    requires forall i :: 0 <= i < |m| ==> p(Ends(m[i].v.draft))
    requires p(Ends(d))
    ensures forall i :: 0 <= i < |AddKeyed(m, key, d)| ==> p(Ends(AddKeyed(m, key, d)[i].v.draft))
  {
    match Get(m, key)
    case None =>
    case Some(prev) =>
      var j := Find(m, key).value;
      assert prev == m[j].v;
      WithAmountKey(prev.draft, prev.draft.amount + d.amount);
  }

  /** Whatever every old edge and every draft joins, every merged edge joins. */
  lemma {:induction false} MergeAllKeeps(m: seq<Entry<Edge>>, ds: seq<Draft>, p: ((bool, string, string)) -> bool)
    requires forall i :: 0 <= i < |m| ==> p(Ends(m[i].v.draft))
    requires forall i :: 0 <= i < |ds| ==> p(Ends(ds[i]))
    ensures forall i :: 0 <= i < |MergeAll(m, ds)| ==> p(Ends(MergeAll(m, ds)[i].v.draft))
    decreases |ds|
  {
    if |ds| > 0 {
      AddEdgeKeeps(m, ds[0], p);
      MergeAllKeeps(AddEdge(m, ds[0]), ds[1..], p);
    }
  }

  /** Well-keyed edges have distinct ids. */
  lemma WellKeyedIds(m: seq<Entry<Edge>>)
    requires WellKeyed(m)
    ensures forall i, j :: 0 <= i < j < |m| ==> m[i].v.id != m[j].v.id
  {
    forall i, j | 0 <= i < j < |m|
      ensures m[i].v.id != m[j].v.id
    {
      assert Filed(m[i]) && Filed(m[j]);
      assert m[i].v.id[2..] == m[i].k && m[j].v.id[2..] == m[j].k;
    }
  }
}
