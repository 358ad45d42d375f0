// The collapse pass: which item nodes it removes, the edges it adds in their place, and
// what the final node and edge lists look like.
module LineCollapse {
  import opened Wrappers
  import opened Strings
  import opened PackTypes
  import opened Key
  import opened OrderedMaps
  import opened Planner
  import opened ProductionLine
  import opened LineEdges
  import opened LineWalk
  import opened LineModel

  // ---------------------------------------------------------------------------
  // The scan

  /** Item node `id` is one the scan removes: not the root, no seed, with both a producer and a consumer. */
  predicate Dropped(nodes: seq<LineNode>, edges: seq<Edge>, id: string) {
    exists i :: 0 <= i < |nodes| && nodes[i].LineItem? && nodes[i].nodeId == id && !Keep(nodes[i], edges)
  }

  lemma DroppedCons(nodes: seq<LineNode>, edges: seq<Edge>, id: string)
    requires |nodes| > 0
    ensures Dropped(nodes, edges, id)
        <==> (nodes[0].LineItem? && nodes[0].nodeId == id && !Keep(nodes[0], edges)) || Dropped(nodes[1..], edges, id)
  {
    if Dropped(nodes, edges, id) {
      var i :| 0 <= i < |nodes| && nodes[i].LineItem? && nodes[i].nodeId == id && !Keep(nodes[i], edges);
      if i > 0 {
        assert nodes[1..][i - 1] == nodes[i];
      }
    }
    if Dropped(nodes[1..], edges, id) {
      var i :| 0 <= i < |nodes[1..]| && nodes[1..][i].LineItem? && nodes[1..][i].nodeId == id && !Keep(nodes[1..][i], edges);
      assert nodes[i + 1] == nodes[1..][i];
    }
  }

  /** The scan removes exactly the item nodes that are not kept. */
  lemma {:induction false} ScanRemoves(nodes: seq<LineNode>, edges: seq<Edge>, acc: Removal, id: string)
    ensures id in Scan(nodes, edges, acc).nodeIds <==> id in acc.nodeIds || Dropped(nodes, edges, id)
    decreases |nodes|
  {
    if |nodes| > 0 {
      var acc1 := if nodes[0].LineItem? then ScanNode(nodes[0], edges, acc) else acc;
      ScanRemoves(nodes[1..], edges, acc1, id);
      DroppedCons(nodes, edges, id);
    }
  }

  lemma {:induction false} ScanKeepsAdded(nodes: seq<LineNode>, edges: seq<Edge>, acc: Removal, d: Draft)
    requires d in acc.added
    ensures d in Scan(nodes, edges, acc).added
    decreases |nodes|
  {
    if |nodes| > 0 {
      var acc1 := if nodes[0].LineItem? then ScanNode(nodes[0], edges, acc) else acc;
      ScanKeepsAdded(nodes[1..], edges, acc1, d);
    }
  }

  /** A consumer edge of the list has its re-sourced copy in `Rewired`. */
  lemma RewiredHas(producer: Edge, outgoing: seq<Edge>, c: Edge)
    requires forall i :: 0 <= i < |outgoing| ==> outgoing[i].draft.ItemDraft?
    requires c in outgoing
    ensures ItemDraft(producer.draft.source, c.draft.target, c.draft.itemKey, c.draft.amount) in Rewired(producer, outgoing)
  {
    var j :| 0 <= j < |outgoing| && outgoing[j] == c;
    assert Rewired(producer, outgoing)[j] == ItemDraft(producer.draft.source, c.draft.target, c.draft.itemKey, c.draft.amount);
  }

  /** Removing an item node appends its rewired consumer edges. */
  lemma ScanNodeAdds(n: LineNode, edges: seq<Edge>, acc: Removal, c: Edge)
    requires n.LineItem? && !Keep(n, edges)
    requires c in Outgoing(edges, n.nodeId)
    ensures ItemDraft(Producer(edges, n.nodeId).draft.source, c.draft.target, c.draft.itemKey, c.draft.amount)
            in ScanNode(n, edges, acc).added
  {
    RewiredHas(Producer(edges, n.nodeId), Outgoing(edges, n.nodeId), c);
  }

  /**
   * Each consumer of a removed item is wired to the item's producer: the scan adds an edge
   * from the machine of the largest incoming edge to the consumer's machine, same item and amount.
   */
  lemma {:induction false} ScanRewires(nodes: seq<LineNode>, edges: seq<Edge>, acc: Removal, i: nat, c: Edge)
    requires i < |nodes| && nodes[i].LineItem? && !Keep(nodes[i], edges)
    requires c in Outgoing(edges, nodes[i].nodeId)
    ensures ItemDraft(Producer(edges, nodes[i].nodeId).draft.source, c.draft.target, c.draft.itemKey, c.draft.amount)
            in Scan(nodes, edges, acc).added
    decreases |nodes|
  {
    var acc1 := if nodes[0].LineItem? then ScanNode(nodes[0], edges, acc) else acc;
    if i == 0 {
      ScanNodeAdds(nodes[0], edges, acc, c);
      ScanKeepsAdded(nodes[1..], edges, acc1, ItemDraft(Producer(edges, nodes[0].nodeId).draft.source, c.draft.target, c.draft.itemKey, c.draft.amount));
    } else {
      assert nodes[1..][i - 1] == nodes[i];
      ScanRewires(nodes[1..], edges, acc1, i - 1, c);
    }
  }

  /** An edge joining two machines. */
  predicate MachineToMachine(d: Draft) {
    d.ItemDraft? && IsMachineId(d.source) && IsMachineId(d.target)
  }

  /** Rewiring from a machine to consumers that are machines gives machine-to-machine edges. */
  lemma RewiredMachines(producer: Edge, outgoing: seq<Edge>)
    requires IsMachineId(producer.draft.source)
    requires forall i :: 0 <= i < |outgoing| ==> outgoing[i].draft.ItemDraft? && IsMachineId(outgoing[i].draft.target)
    ensures forall j :: 0 <= j < |Rewired(producer, outgoing)| ==> MachineToMachine(Rewired(producer, outgoing)[j])
  {
  }

  lemma ScanNodeMachines(n: LineNode, edges: seq<Edge>, acc: Removal)
    requires n.LineItem?
    requires forall j :: 0 <= j < |acc.added| ==> MachineToMachine(acc.added[j])
    ensures forall j :: 0 <= j < |ScanNode(n, edges, acc).added| ==> MachineToMachine(ScanNode(n, edges, acc).added[j])
  {
    if !Keep(n, edges) {
      var added := Rewired(Producer(edges, n.nodeId), Outgoing(edges, n.nodeId));
      RewiredMachines(Producer(edges, n.nodeId), Outgoing(edges, n.nodeId));
      assert ScanNode(n, edges, acc).added == acc.added + added;
    }
  }

  /** Every edge the scan adds joins two machines. */
  lemma {:induction false} ScanAddsMachineEdges(nodes: seq<LineNode>, edges: seq<Edge>, acc: Removal)
    requires forall j :: 0 <= j < |acc.added| ==> MachineToMachine(acc.added[j])
    ensures forall j :: 0 <= j < |Scan(nodes, edges, acc).added| ==> MachineToMachine(Scan(nodes, edges, acc).added[j])
    decreases |nodes|
  {
    if |nodes| > 0 {
      var acc1 := if nodes[0].LineItem? then ScanNode(nodes[0], edges, acc) else acc;
      if nodes[0].LineItem? {
        ScanNodeMachines(nodes[0], edges, acc);
      }
      ScanAddsMachineEdges(nodes[1..], edges, acc1);
    }
  }

  // ---------------------------------------------------------------------------
  // The final edges

  /** What the scan from an empty start collects. */
  function Removed(nodes: seq<LineNode>, edges: seq<Edge>): Removal {
    Scan(nodes, edges, Removal({}, {}, []))
  }

  /** The final edge map: surviving edges merged first, then the rewired edges. */
  function MergedMap(nodes: seq<LineNode>, edges: seq<Edge>): seq<Entry<Edge>> {
    var rm := Removed(nodes, edges);
    MergeAll(MergeAll([], Surviving(edges, rm)), rm.added)
  }

  lemma CollapseParts(nodes: seq<LineNode>, edges: seq<Edge>)
    ensures Collapse(nodes, edges).1 == Values(MergedMap(nodes, edges))
    ensures Collapse(nodes, edges).0
         == Reamount(NotRemoved(nodes, Removed(nodes, edges).nodeIds), NodeAmounts(Values(MergedMap(nodes, edges)), true, map[]))
  {
  }

  /** Item nodes carry item ids, as every node list the walk produces does. */
  predicate ItemsHaveItemIds(nodes: seq<LineNode>) {
    forall i :: 0 <= i < |nodes| && nodes[i].LineItem? ==> IsItemId(nodes[i].nodeId)
  }

  lemma MachineNotItem(x: string)
    ensures !(IsMachineId(x) && IsItemId(x))
  {
  }

  /** The removed ids are the dropped item nodes, so they are item ids. */
  lemma RemovedAreItems(nodes: seq<LineNode>, edges: seq<Edge>, id: string)
    requires ItemsHaveItemIds(nodes)
    ensures id in Removed(nodes, edges).nodeIds <==> Dropped(nodes, edges, id)
    ensures id in Removed(nodes, edges).nodeIds ==> IsItemId(id)
  {
    ScanRemoves(nodes, edges, Removal({}, {}, []), id);
  }

  /** The pair of ends avoids the removed nodes. */
  predicate Avoids(removed: set<string>, e: (bool, string, string)) {
    e.1 !in removed && e.2 !in removed
  }

  /** A surviving edge has neither end removed, and redrafting keeps its ends. */
  lemma {:induction false} SurvivingAvoids(edges: seq<Edge>, rm: Removal)
    ensures forall i :: 0 <= i < |Surviving(edges, rm)| ==> Avoids(rm.nodeIds, Ends(Surviving(edges, rm)[i]))
    decreases |edges|
  {
    if |edges| > 0 {
      SurvivingAvoids(edges[1..], rm);
      var head := if Survives(edges[0], rm) then [Redraft(edges[0])] else [];
      assert Surviving(edges, rm) == head + Surviving(edges[1..], rm);
    }
  }

  /** No final edge touches a removed item node. */
  lemma CollapsedEdgesAvoid(nodes: seq<LineNode>, edges: seq<Edge>)
    requires ItemsHaveItemIds(nodes)
    ensures var r := Collapse(nodes, edges).1;
      forall j :: 0 <= j < |r| ==> !Dropped(nodes, edges, r[j].draft.source) && !Dropped(nodes, edges, r[j].draft.target)
  {
    var rm := Removed(nodes, edges);
    var p := e => Avoids(rm.nodeIds, e);
    SurvivingAvoids(edges, rm);
    ScanAddsMachineEdges(nodes, edges, Removal({}, {}, []));
    forall j | 0 <= j < |rm.added|
      ensures p(Ends(rm.added[j]))
    {
      var d := rm.added[j];
      RemovedAreItems(nodes, edges, d.source);
      RemovedAreItems(nodes, edges, d.target);
      MachineNotItem(d.source);
      MachineNotItem(d.target);
    }
    var m1 := MergeAll([], Surviving(edges, rm));
    MergeAllKeeps([], Surviving(edges, rm), p);
    MergeAllKeeps(m1, rm.added, p);
    var m := MergedMap(nodes, edges);
    var r := Collapse(nodes, edges).1;
    CollapseParts(nodes, edges);
    forall j | 0 <= j < |r|
      ensures !Dropped(nodes, edges, r[j].draft.source) && !Dropped(nodes, edges, r[j].draft.target)
    {
      assert r[j] == m[j].v;
      assert p(Ends(m[j].v.draft));
      RemovedAreItems(nodes, edges, r[j].draft.source);
      RemovedAreItems(nodes, edges, r[j].draft.target);
    }
  }

  /** The final edges have distinct ids. */
  lemma CollapsedEdgeIds(nodes: seq<LineNode>, edges: seq<Edge>)
    ensures var r := Collapse(nodes, edges).1;
      forall i, j :: 0 <= i < j < |r| ==> r[i].id != r[j].id
  {
    var rm := Removed(nodes, edges);
    MergeAllWellKeyed([], Surviving(edges, rm));
    MergeAllWellKeyed(MergeAll([], Surviving(edges, rm)), rm.added);
    WellKeyedIds(MergedMap(nodes, edges));
    CollapseParts(nodes, edges);
  }

  /**
   * The final edge under key `k` exists exactly when a surviving or rewired draft has that key,
   * and carries the surviving drafts' amount for `k` plus the rewired drafts' amount for `k`.
   */
  lemma CollapsedEdgeAmounts(nodes: seq<LineNode>, edges: seq<Edge>, k: string)
    ensures var rm := Removed(nodes, edges);
      Has(MergedMap(nodes, edges), k) <==> k in DraftKeys(Surviving(edges, rm)) || k in DraftKeys(rm.added)
    ensures var rm := Removed(nodes, edges);
      EdgeAmount(MergedMap(nodes, edges), k) == SumFor(Surviving(edges, rm), k) + SumFor(rm.added, k)
  {
    var rm := Removed(nodes, edges);
    var m1 := MergeAll([], Surviving(edges, rm));
    MergeAllHas([], Surviving(edges, rm), k);
    MergeAllHas(m1, rm.added, k);
    MergeAllAmount([], Surviving(edges, rm), k);
    MergeAllAmount(m1, rm.added, k);
  }

  /**
   * When an item node is removed, each of its consumers gets an edge in the final map from the
   * item's producing machine, keyed by the rewired draft.
   */
  lemma CollapsedRewires(nodes: seq<LineNode>, edges: seq<Edge>, i: nat, c: Edge)
    requires i < |nodes| && nodes[i].LineItem? && !Keep(nodes[i], edges)
    requires c in Outgoing(edges, nodes[i].nodeId)
    ensures Has(MergedMap(nodes, edges),
                EdgeKey(ItemDraft(Producer(edges, nodes[i].nodeId).draft.source, c.draft.target, c.draft.itemKey, c.draft.amount)))
  {
    var rm := Removed(nodes, edges);
    var d := ItemDraft(Producer(edges, nodes[i].nodeId).draft.source, c.draft.target, c.draft.itemKey, c.draft.amount);
    ScanRewires(nodes, edges, Removal({}, {}, []), i, c);
    var j :| 0 <= j < |rm.added| && rm.added[j] == d;
    assert EdgeKey(d) in DraftKeys(rm.added);
    CollapsedEdgeAmounts(nodes, edges, EdgeKey(d));
  }

  // ---------------------------------------------------------------------------
  // The final nodes

  /** With distinct ids, a node is dropped exactly when it is an item node the scan does not keep. */
  lemma DroppedIff(nodes: seq<LineNode>, edges: seq<Edge>, i: nat)
    requires DistinctIds(nodes) && i < |nodes|
    ensures Dropped(nodes, edges, nodes[i].nodeId) <==> nodes[i].LineItem? && !Keep(nodes[i], edges)
  {
    if Dropped(nodes, edges, nodes[i].nodeId) {
      var k :| 0 <= k < |nodes| && nodes[k].LineItem? && nodes[k].nodeId == nodes[i].nodeId && !Keep(nodes[k], edges);
      assert k == i;
    }
  }

  lemma {:induction false} NotRemovedDistinct(nodes: seq<LineNode>, removed: set<string>)
    requires DistinctIds(nodes)
    ensures DistinctIds(NotRemoved(nodes, removed))
    decreases |nodes|
  {
    if |nodes| > 0 {
      var rest := NotRemoved(nodes[1..], removed);
      NotRemovedDistinct(nodes[1..], removed);
      forall j | 0 <= j < |rest|
        ensures rest[j].nodeId != nodes[0].nodeId
      {
        var k :| 0 <= k < |nodes[1..]| && nodes[1..][k] == rest[j];
        assert nodes[k + 1] == rest[j];
      }
      var head := if nodes[0].nodeId !in removed then [nodes[0]] else [];
      assert NotRemoved(nodes, removed) == head + rest;
    }
  }

  /** After the collapse pass no two nodes share an id. */
  lemma CollapsedNodeIds(nodes: seq<LineNode>, edges: seq<Edge>)
    requires DistinctIds(nodes)
    ensures DistinctIds(Collapse(nodes, edges).0)
  {
    var rm := Removed(nodes, edges);
    var kept := NotRemoved(nodes, rm.nodeIds);
    NotRemovedDistinct(nodes, rm.nodeIds);
    CollapseParts(nodes, edges);
    var r := Collapse(nodes, edges).0;
    forall i, j | 0 <= i < j < |r|
      ensures r[i].nodeId != r[j].nodeId
    {
      assert r[i].nodeId == kept[i].nodeId && r[j].nodeId == kept[j].nodeId;
    }
  }

  /**
   * A node of the list survives the collapse pass exactly when it is not an item node
   * with a producer and a consumer that is neither the root nor a cycle seed.
   */
  lemma CollapsedNodeKept(nodes: seq<LineNode>, edges: seq<Edge>, i: nat)
    requires DistinctIds(nodes) && ItemsHaveItemIds(nodes) && i < |nodes|
    ensures var r := Collapse(nodes, edges).0;
      (exists j :: 0 <= j < |r| && r[j].nodeId == nodes[i].nodeId) <==> !(nodes[i].LineItem? && !Keep(nodes[i], edges))
  {
    var rm := Removed(nodes, edges);
    var kept := NotRemoved(nodes, rm.nodeIds);
    CollapseParts(nodes, edges);
    var r := Collapse(nodes, edges).0;
    RemovedAreItems(nodes, edges, nodes[i].nodeId);
    DroppedIff(nodes, edges, i);
    if exists j :: 0 <= j < |r| && r[j].nodeId == nodes[i].nodeId {
      var j :| 0 <= j < |r| && r[j].nodeId == nodes[i].nodeId;
      assert kept[j].nodeId == nodes[i].nodeId;
    }
    if !(nodes[i].LineItem? && !Keep(nodes[i], edges)) {
      assert nodes[i] in kept;
      var j :| 0 <= j < |kept| && kept[j] == nodes[i];
      assert r[j].nodeId == nodes[i].nodeId;
    }
  }

  /** `after` is `before` with, for an item or fluid node, a new amount. */
  predicate Reamounted(before: LineNode, after: LineNode) {
    match before
    case LineItem(id, key, _, seed, isRoot) => after.LineItem? && after == LineItem(id, key, after.amount, seed, isRoot)
    case LineFluid(id, fluidId, unit, _) => after.LineFluid? && after == LineFluid(id, fluidId, unit, after.amount)
    case LineMachine(_, _, _, _, _, _, _, _, _) => after == before
  }

  /**
   * Every final node is a node of the list, unchanged if it is a machine; an item or fluid
   * node's amount is what the final edges credit to it.
   */
  lemma CollapsedNode(nodes: seq<LineNode>, edges: seq<Edge>, j: nat)
    requires j < |Collapse(nodes, edges).0|
    ensures var r := Collapse(nodes, edges);
      exists i :: 0 <= i < |nodes| && Reamounted(nodes[i], r.0[j])
    ensures var r := Collapse(nodes, edges);
      !r.0[j].LineMachine? ==> r.0[j].amount == CreditTotal(r.1, r.0[j].nodeId, true)
  {
    var rm := Removed(nodes, edges);
    var kept := NotRemoved(nodes, rm.nodeIds);
    var merged := Values(MergedMap(nodes, edges));
    CollapseParts(nodes, edges);
    var r := Collapse(nodes, edges);
    var i :| 0 <= i < |nodes| && nodes[i] == kept[j];
    assert Reamounted(nodes[i], r.0[j]);
    NodeAmountsTotal(merged, true, map[], r.0[j].nodeId);
  }

  // ---------------------------------------------------------------------------
  // The model with the collapse pass

  /** Item nodes of a node list come from the item map, so their ids are item ids. */
  lemma LineNodesItemIds(line: Line, amounts: map<string, real>)
    ensures ItemsHaveItemIds(LineNodes(line, amounts))
  {
    var ns := LineNodes(line, amounts);
    forall i | 0 <= i < |ns| && ns[i].LineItem?
      ensures IsItemId(ns[i].nodeId)
    {
      LineNodeAt(line, amounts, i);
      IdKinds(KeyAt(line, i));
    }
  }

  /**
   * With the collapse pass, the builder collapses the list it would give without it; that list
   * has distinct ids and item ids on its item nodes, so the collapsed one has distinct node ids
   * and distinct edge ids.
   */
  lemma CollapsedModel(root: Node, rootItemKey: Option<ItemKey>, seeds: bool)
    ensures var plain := BuildProductionLineModel(root, rootItemKey, seeds, false);
      BuildProductionLineModel(root, rootItemKey, seeds, true) == Collapse(plain.0, plain.1)
    ensures var plain := BuildProductionLineModel(root, rootItemKey, seeds, false);
      DistinctIds(plain.0) && ItemsHaveItemIds(plain.0)
    ensures var r := BuildProductionLineModel(root, rootItemKey, seeds, true);
      DistinctIds(r.0) && forall i, j :: 0 <= i < j < |r.1| ==> r.1[i].id != r.1[j].id
  {
    var plain := BuildProductionLineModel(root, rootItemKey, seeds, false);
    var line := Walk(Config(RootHash(root, rootItemKey), seeds), root, EmptyLine);
    Uncollapsed(root, rootItemKey, seeds);
    UncollapsedNodeIds(root, rootItemKey, seeds);
    LineNodesItemIds(line, NodeAmounts(Values(line.edges), false, map[]));
    CollapsedNodeIds(plain.0, plain.1);
    CollapsedEdgeIds(plain.0, plain.1);
  }
}
